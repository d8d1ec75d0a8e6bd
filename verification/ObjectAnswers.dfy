/** What the object walk answers: at depth 0 the leaves of the value, each under its path, and
    at any depth a rendering of the value in which each managed object is a name or a dict. */
module ObjectAnswers {
  import opened Common
  import opened ObjectWalk

  // ---- Paths ----

  datatype Step = Key(name: string) | Item(index: nat)

  /** Where a path ends: at a text, or at a container that nothing was kept of. */
  datatype End = Said(text: string) | NoEntries | NoItems

  type Trail = (seq<Step>, End)

  function Under(step: Step, trails: seq<Trail>): seq<Trail> {
    if trails == [] then []
    else Under(step, trails[..|trails|-1]) + [([step] + trails[|trails|-1].0, trails[|trails|-1].1)]
  }

  function OrEnd(trails: seq<Trail>, end: End): seq<Trail> {
    if trails == [] then [([], end)] else trails
  }

  /** All paths of an answer, in order. */
  function Trails(info: Info): seq<Trail> {
    match info
    case Nothing => []
    case Text(text) => [([], Said(text))]
    case Dict(entries) => OrEnd(TrailsOfEntries(entries), NoEntries)
    case Infos(infos) => OrEnd(TrailsOfItems(infos), NoItems)
  }

  function TrailsOfEntries(entries: seq<Entry>): seq<Trail> {
    if entries == [] then []
    else TrailsOfEntries(entries[..|entries|-1]) + Under(Key(entries[|entries|-1].key), Trails(entries[|entries|-1].info))
  }

  function TrailsOfItems(infos: seq<Info>): seq<Trail> {
    if infos == [] then []
    else TrailsOfItems(infos[..|infos|-1]) + Under(Item(|infos| - 1), Trails(infos[|infos|-1]))
  }

  // ---- The leaves of a value ----

  predicate HasName(g: Graph, id: Id) {
    id in g && g[id].name.Some?
  }

  /** Whether anything of a value is kept when no managed object is opened. */
  predicate Kept(g: Graph, v: Value) {
    !v.Foreign? && (v.Managed? ==> HasName(g, v.id))
  }

  function KeptCount(g: Graph, parts: seq<Part>): nat {
    if parts == [] then 0
    else KeptCount(g, parts[..|parts|-1]) + if Kept(g, parts[|parts|-1].value) then 1 else 0
  }

  /** The paths to plain values and to the names of managed objects, in order; the index of
      an item counts the kept ones. */
  function Leaves(g: Graph, v: Value): seq<Trail>
    decreases v
  {
    match v
    case Managed(id) => if HasName(g, id) then [([], Said(g[id].name.value))] else []
    case Plain(text) => [([], Said(text))]
    case Foreign => []
    case Suds(fields) => OrEnd(LeavesOfFields(g, fields), NoEntries)
    case List(items) => OrEnd(LeavesOfItems(g, items), NoItems)
  }

  function LeavesOfFields(g: Graph, fields: seq<Part>): seq<Trail>
    decreases fields
  {
    if fields == [] then []
    else LeavesOfFields(g, fields[..|fields|-1]) + Under(Key(fields[|fields|-1].key), Leaves(g, fields[|fields|-1].value))
  }

  function LeavesOfItems(g: Graph, items: seq<Part>): seq<Trail>
    decreases items
  {
    if items == [] then []
    else
      LeavesOfItems(g, items[..|items|-1])
      + Under(Item(KeptCount(g, items[..|items|-1])), Leaves(g, items[|items|-1].value))
  }

  // ---- Without depth ----

  /** A walk without depth answers exactly the leaves, whatever it has seen. */
  lemma {:induction false} ShallowAnswer(g: Graph, v: Value, depth: int, seen: set<Id>)
    requires depth <= 0
    ensures Trails(InfoOf(g, v, depth, seen).info) == Leaves(g, v)
    ensures InfoOf(g, v, depth, seen).info == Nothing <==> !Kept(g, v)
    decreases v
  {
    match v
    case Managed(_) =>
    case Plain(_) =>
    case Foreign =>
    case Suds(fields) => ShallowFields(g, fields, depth, seen);
    case List(items) => ShallowItems(g, items, depth, seen);
  }

  lemma {:induction false} ShallowFields(g: Graph, fields: seq<Part>, depth: int, seen: set<Id>)
    requires depth <= 0
    ensures TrailsOfEntries(InfoOfAll(g, fields, depth, seen).entries) == LeavesOfFields(g, fields)
    decreases fields
  {
    if fields != [] {
      var front, last := fields[..|fields|-1], fields[|fields|-1];
      ShallowFields(g, front, depth, seen);
      var before := InfoOfAll(g, front, depth, seen);
      ShallowAnswer(g, last.value, depth, before.seen);
      MoreTrails(before.entries, last.key, InfoOf(g, last.value, depth, before.seen).info);
    }
  }

  /** The paths with one entry more, which is left out if it is nothing. */
  lemma MoreTrails(entries: seq<Entry>, key: string, info: Info)
    ensures var more := entries + if info == Nothing then [] else [Entry(key, info)];
            TrailsOfEntries(more) == TrailsOfEntries(entries) + Under(Key(key), Trails(info))
  {
    if info != Nothing {
      assert (entries + [Entry(key, info)])[..|entries|] == entries;
    } else {
      assert entries + [] == entries;
      assert Trails(info) == [] && Under(Key(key), []) == [];
      assert TrailsOfEntries(entries) + [] == TrailsOfEntries(entries);
    }
  }

  lemma MoreItems(entries: seq<Entry>, key: string, info: Info)
    ensures var infos, more := ValuesOf(entries), ValuesOf(entries + if info == Nothing then [] else [Entry(key, info)]);
            && TrailsOfItems(more) == TrailsOfItems(infos) + Under(Item(|infos|), Trails(info))
            && |more| == |infos| + if info == Nothing then 0 else 1
  {
    var infos := ValuesOf(entries);
    if info != Nothing {
      OneMore(entries, key, info);
    } else {
      assert entries + [] == entries;
      assert Trails(info) == [] && Under(Item(|infos|), []) == [];
      assert TrailsOfItems(infos) + [] == TrailsOfItems(infos);
    }
  }

  lemma {:induction false} ShallowItems(g: Graph, items: seq<Part>, depth: int, seen: set<Id>)
    requires depth <= 0
    ensures var infos := ValuesOf(InfoOfAll(g, items, depth, seen).entries);
            TrailsOfItems(infos) == LeavesOfItems(g, items) && |infos| == KeptCount(g, items)
    decreases items
  {
    if items != [] {
      var front, last := items[..|items|-1], items[|items|-1];
      ShallowItems(g, front, depth, seen);
      var before := InfoOfAll(g, front, depth, seen);
      ShallowAnswer(g, last.value, depth, before.seen);
      MoreItems(before.entries, last.key, InfoOf(g, last.value, depth, before.seen).info);
    }
  }

  // ---- At any depth ----

  /** The attributes whose names do not start with an underscore. */
  function Visible(parts: seq<Part>): seq<Part> {
    if parts == [] then []
    else
      var last := parts[|parts|-1];
      Visible(parts[..|parts|-1]) + if last.key == "" || last.key[0] != '_' then [last] else []
  }

  lemma {:induction false} VisibleIsPublic(parts: seq<Part>)
    ensures PublicOnly(parts) == Visible(parts)
    decreases |parts|
  {
    if parts != [] {
      VisibleIsPublic(parts[..|parts|-1]);
    }
  }

  function MembersOf(g: Graph, id: Id): seq<Part> {
    if id in g then Visible(g[id].attributes) else []
  }

  /** The answer for a managed object that is not opened. */
  function NameOnly(g: Graph, id: Id): Info {
    if HasName(g, id) then Text(g[id].name.value) else Nothing
  }

  /** `info` says what the value is: plain values as they are, nothing for what is foreign, a
      dict or a list of its parts for a container, and for a managed object its name or a
      dict of its members. */
  ghost predicate Renders(g: Graph, v: Value, info: Info)
    decreases info, 0, 0
  {
    match v
    case Plain(text) => info == Text(text)
    case Foreign => info == Nothing
    case Suds(fields) => info.Dict? && RendersEntries(g, fields, info.entries)
    case List(items) => info.Infos? && RendersItems(g, items, info.infos)
    case Managed(id) => info == NameOnly(g, id) || (info.Dict? && RendersEntries(g, MembersOf(g, id), info.entries))
  }

  /** The entries stand for the parts, in order, under their keys; a part is missing only if
      it is nothing. */
  ghost predicate RendersEntries(g: Graph, parts: seq<Part>, entries: seq<Entry>)
    decreases entries, 1, |parts|
  {
    if parts == [] then entries == []
    else
      var front, last := parts[..|parts|-1], parts[|parts|-1];
      || (!Kept(g, last.value) && RendersEntries(g, front, entries))
      || (&& entries != [] && entries[|entries|-1].key == last.key && entries[|entries|-1].info != Nothing
          && Renders(g, last.value, entries[|entries|-1].info) && RendersEntries(g, front, entries[..|entries|-1]))
  }

  ghost predicate RendersItems(g: Graph, parts: seq<Part>, infos: seq<Info>)
    decreases infos, 1, |parts|
  {
    if parts == [] then infos == []
    else
      var front, last := parts[..|parts|-1], parts[|parts|-1];
      || (!Kept(g, last.value) && RendersItems(g, front, infos))
      || (&& infos != [] && infos[|infos|-1] != Nothing
          && Renders(g, last.value, infos[|infos|-1]) && RendersItems(g, front, infos[..|infos|-1]))
  }

  /** What a walk answers says what the value is, at any depth, on any cyclic graph and
      whatever was seen before. */
  lemma {:induction false} AnswerRenders(g: Graph, v: Value, depth: int, seen: set<Id>)
    ensures Renders(g, v, InfoOf(g, v, depth, seen).info)
    ensures InfoOf(g, v, depth, seen).info == Nothing ==> !Kept(g, v)
    decreases Depth(depth), v
  {
    match v
    case Managed(id) =>
      if id !in seen && depth > 0 {
        AllRender(g, Attributes(g, id), depth - 1, seen + {id});
        MembersAre(g, id);
      }
    case Plain(_) =>
    case Foreign =>
    case Suds(fields) => AllRender(g, fields, depth, seen);
    case List(items) => AllRender(g, items, depth, seen);
  }

  lemma MembersAre(g: Graph, id: Id)
    ensures Attributes(g, id) == MembersOf(g, id)
  {
    if id in g {
      VisibleIsPublic(g[id].attributes);
    }
  }

  lemma {:induction false} AllRender(g: Graph, parts: seq<Part>, depth: int, seen: set<Id>)
    ensures RendersEntries(g, parts, InfoOfAll(g, parts, depth, seen).entries)
    ensures RendersItems(g, parts, ValuesOf(InfoOfAll(g, parts, depth, seen).entries))
    decreases Depth(depth), parts
  {
    if parts != [] {
      var front, last := parts[..|parts|-1], parts[|parts|-1];
      AllRender(g, front, depth, seen);
      var before := InfoOfAll(g, front, depth, seen);
      AnswerRenders(g, last.value, depth, before.seen);
      MoreRendered(g, parts, before.entries, InfoOf(g, last.value, depth, before.seen).info);
    }
  }

  lemma MoreRendered(g: Graph, parts: seq<Part>, entries: seq<Entry>, info: Info)
    requires parts != []
    requires var front, last := parts[..|parts|-1], parts[|parts|-1];
             && RendersEntries(g, front, entries) && RendersItems(g, front, ValuesOf(entries))
             && Renders(g, last.value, info) && (info == Nothing ==> !Kept(g, last.value))
    ensures var more := entries + if info == Nothing then [] else [Entry(parts[|parts|-1].key, info)];
            RendersEntries(g, parts, more) && RendersItems(g, parts, ValuesOf(more))
  {
    hide Kept, Renders;
    if info != Nothing {
      OneMore(entries, parts[|parts|-1].key, info);
    } else {
      assert entries + [] == entries;
    }
  }

  lemma OneMore(entries: seq<Entry>, key: string, info: Info)
    ensures (entries + [Entry(key, info)])[..|entries|] == entries
    ensures ValuesOf(entries + [Entry(key, info)]) == ValuesOf(entries) + [info]
    ensures (ValuesOf(entries) + [info])[..|ValuesOf(entries)|] == ValuesOf(entries)
  {
    assert (entries + [Entry(key, info)])[..|entries|] == entries;
  }

  /** Which managed objects are opened: one that was not seen, as long as there is depth; the
      others answer their names. */
  lemma ManagedAnswer(g: Graph, id: Id, depth: int, seen: set<Id>)
    ensures var info := InfoOf(g, Managed(id), depth, seen).info;
            if id !in seen && depth > 0
            then info.Dict? && RendersEntries(g, MembersOf(g, id), info.entries)
            else info == NameOnly(g, id)
  {
    if id !in seen && depth > 0 {
      AllRender(g, Attributes(g, id), depth - 1, seen + {id});
      MembersAre(g, id);
    }
  }
}
