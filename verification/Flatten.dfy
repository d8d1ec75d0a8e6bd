/** `_flatten_dict`: nested dicts to one dict whose keys are paths. */
module Flatten {

  /** A nested value. A list is kept only if all its items are strings. */
  datatype Tree =
    | Dict(entries: seq<Entry>)
    | Strings(items: seq<string>)
    | Mixed
    | Leaf(text: string)

  datatype Entry = Entry(key: string, tree: Tree)

  type Path = seq<string>

  const SEP := '_'

  predicate Hidden(key: string) {
    key != "" && key[0] == SEP
  }

  /** `parent_key + sep + k if parent_key else k`. */
  function Join(parent: string, key: string): string {
    if parent == "" then key else parent + [SEP] + key
  }

  /** The key that a path below `parent` gets. */
  function KeyOf(parent: string, path: Path): string
    decreases |path|
  {
    if path == [] then parent else KeyOf(Join(parent, path[0]), path[1..])
  }

  function FlattenDict(entries: seq<Entry>, parent: string): map<string, Tree>
    decreases entries
  {
    if entries == [] then map[]
    else
      var items := FlattenDict(entries[..|entries|-1], parent);
      var e := entries[|entries|-1];
      var key := Join(parent, e.key);
      if Hidden(e.key) then items
      else
        match e.tree
        case Dict(inner) => items + FlattenDict(inner, key)
        case Strings(_) => items[key := e.tree]
        case Mixed => items
        case Leaf(_) => items[key := e.tree]
  }

  // ---- What should be kept ----

  /** Not a key that starts with an underscore. */
  predicate Visible(key: string) {
    key != "" ==> key[0] != '_'
  }

  /** Whether a path leads to a value that is kept: through keys that do not start with an
      underscore to a leaf or to a list of strings. */
  ghost predicate Keeps(entries: seq<Entry>, path: Path, value: Tree)
    decreases |path|, 0
  {
    path != [] && exists e :: e in entries && e.key == path[0] && Visible(e.key) && Below(e.tree, path[1..], value)
  }

  ghost predicate Below(tree: Tree, path: Path, value: Tree)
    decreases |path|, 1
  {
    match tree
    case Dict(inner) => Keeps(inner, path, value)
    case Strings(_) => path == [] && value == tree
    case Mixed => false
    case Leaf(_) => path == [] && value == tree
  }

  /** The keys of a dict differ, at every level, and those that are kept contain no separator. */
  ghost predicate Clean(entries: seq<Entry>)
    decreases entries
  {
    && (forall i, j :: 0 <= i < j < |entries| ==> entries[i].key != entries[j].key)
    && (forall e :: e in entries && Visible(e.key) ==> '_' !in e.key)
    && (forall i :: 0 <= i < |entries| && entries[i].tree.Dict? ==> Clean(entries[i].tree.entries))
  }

  // ---- Splitting a key ----

  /** `s.split('_')`. */
  function Split(s: string): (r: Path)
    ensures |r| > 0
  {
    if s == [] then [""]
    else
      var front, last := Split(s[..|s|-1]), s[|s|-1];
      if last == '_' then front + [""] else front[..|front|-1] + [front[|front|-1] + [last]]
  }

  lemma {:induction false} SplitJoin(parent: string, key: string)
    requires '_' !in key
    ensures Split(parent + ['_'] + key) == Split(parent) + [key]
    decreases |key|
  {
    var s := parent + ['_'] + key;
    if key == "" {
      assert s[..|s|-1] == parent;
    } else {
      var front, last := key[..|key|-1], key[|key|-1];
      SplitJoin(parent, front);
      assert s[..|s|-1] == parent + ['_'] + front;
      assert key == front + [last];
    }
  }

  lemma {:induction false} SplitPlain(key: string)
    requires '_' !in key
    ensures Split(key) == [key]
    decreases |key|
  {
    if key != "" {
      SplitPlain(key[..|key|-1]);
      assert key == key[..|key|-1] + [key[|key|-1]];
    }
  }

  ghost predicate Plain(path: Path) {
    forall k :: k in path ==> '_' !in k
  }

  /** Below a parent that has a name, splitting a key gives the path back. */
  lemma {:induction false} SplitKey(parent: string, path: Path)
    requires parent != "" && Plain(path)
    ensures Split(KeyOf(parent, path)) == Split(parent) + path
    decreases |path|
  {
    hide Split;
    if path != [] {
      var next := Join(parent, path[0]);
      assert path[0] in path && next == parent + ['_'] + path[0];
      SplitJoin(parent, path[0]);
      SplitKey(next, path[1..]);
      assert KeyOf(parent, path) == KeyOf(next, path[1..]);
      assert Split(parent) + [path[0]] + path[1..] == Split(parent) + path;
    } else {
      assert Split(parent) + [] == Split(parent);
    }
  }

  /** At the top an empty key leaves no trace in what is built below it. */
  lemma TopKey(path: Path)
    requires path != []
    ensures KeyOf("", path) == if path[0] != "" || |path| > 1 then KeyOf(path[0], path[1..]) else ""
  {
    assert Join("", path[0]) == path[0];
  }

  lemma SplitNamedTop(path: Path)
    requires path != [] && Plain(path) && path[0] != ""
    ensures Split(KeyOf("", path)) == path
  {
    hide Split;
    TopKey(path);
    SplitPlain(path[0]);
    SplitKey(path[0], path[1..]);
    assert [path[0]] + path[1..] == path;
  }

  /** Below this parent, splitting the key of the path gives the path back: at the top it must
      be a single key or start with a key that is not empty. */
  predicate Recoverable(parent: string, path: Path) {
    path != [] && (parent != "" || |path| == 1 || path[0] != "")
  }

  /** At the top every key splits into such a path. */
  lemma {:induction false} TopSplit(path: Path)
    requires path != [] && Plain(path)
    ensures Recoverable("", Split(KeyOf("", path)))
    decreases |path|
  {
    if path[0] != "" {
      SplitNamedTop(path);
    } else if |path| > 1 {
      TopKey(path);
      TopSplit(path[1..]);
    } else {
      TopKey(path);
    }
  }

  /** What the splits of all keys below a parent begin with. */
  function Base(parent: string): Path {
    if parent == "" then [] else Split(parent)
  }

  lemma SplitIsExact(parent: string, path: Path)
    requires path != [] && Plain(path)
    ensures Split(KeyOf(parent, path)) == Base(parent) + path <==> Recoverable(parent, path)
  {
    if parent != "" {
      SplitKey(parent, path);
    } else {
      TopSplit(path);
      assert Base(parent) + path == path;
      if path[0] != "" {
        SplitNamedTop(path);
      } else if |path| == 1 {
        TopKey(path);
        assert path == [""];
      }
    }
  }

  lemma KeyIsInjective(parent: string, a: Path, b: Path)
    requires Plain(a) && Plain(b) && Recoverable(parent, a) && Recoverable(parent, b)
    requires KeyOf(parent, a) == KeyOf(parent, b)
    ensures a == b
  {
    SplitIsExact(parent, a);
    SplitIsExact(parent, b);
    SameEnd(Base(parent), a, b);
  }

  lemma SameEnd(base: Path, a: Path, b: Path)
    requires base + a == base + b
    ensures a == b
  {
    assert (base + a)[|base|..] == a && (base + b)[|base|..] == b;
  }

  // ---- The flat dict holds exactly what should be kept ----

  lemma {:induction false} KeptIsPlain(entries: seq<Entry>, path: Path, value: Tree)
    requires Clean(entries) && Keeps(entries, path, value)
    ensures Plain(path)
    decreases |path|
  {
    var e :| e in entries && e.key == path[0] && Visible(e.key) && Below(e.tree, path[1..], value);
    if e.tree.Dict? {
      KeptIsPlain(e.tree.entries, path[1..], value);
    }
    assert path == [path[0]] + path[1..];
  }

  /** The parent has a name, or nothing is kept below an empty key at the top. */
  ghost predicate Named(entries: seq<Entry>, parent: string) {
    forall path, value :: Keeps(entries, path, value) ==> Recoverable(parent, path)
  }

  /** Every entry of the result comes from a path. */
  lemma {:induction false} Sound(entries: seq<Entry>, parent: string, key: string)
    requires key in FlattenDict(entries, parent)
    ensures exists path :: Keeps(entries, path, FlattenDict(entries, parent)[key]) && KeyOf(parent, path) == key
    decreases entries
  {
    var value := FlattenDict(entries, parent)[key];
    var front, e := entries[..|entries|-1], entries[|entries|-1];
    var here := Join(parent, e.key);
    if !Hidden(e.key) && e.tree.Dict? && key in FlattenDict(e.tree.entries, here) {
      Sound(e.tree.entries, here, key);
      var rest :| Keeps(e.tree.entries, rest, value) && KeyOf(here, rest) == key;
      var path := [e.key] + rest;
      assert path[1..] == rest && Below(e.tree, rest, value);
      assert Keeps(entries, path, value) && KeyOf(parent, path) == key;
    } else if !Hidden(e.key) && (e.tree.Leaf? || e.tree.Strings?) && key == here {
      assert Below(e.tree, [e.key][1..], value);
      assert Keeps(entries, [e.key], value) && KeyOf(parent, [e.key]) == key;
    } else {
      Sound(front, parent, key);
      var path :| Keeps(front, path, value) && KeyOf(parent, path) == key;
      assert Keeps(entries, path, value);
    }
  }

  /** And every path has its entry. */
  lemma {:induction false} Complete(entries: seq<Entry>, parent: string, path: Path, value: Tree)
    requires Clean(entries) && Named(entries, parent) && Keeps(entries, path, value)
    ensures KeyOf(parent, path) in FlattenDict(entries, parent)
    ensures FlattenDict(entries, parent)[KeyOf(parent, path)] == value
    decreases entries
  {
    var front, last := entries[..|entries|-1], entries[|entries|-1];
    var e :| e in entries && e.key == path[0] && Visible(e.key) && Below(e.tree, path[1..], value);
    var here := Join(parent, last.key);
    if e == last {
      hide Named;
      if e.tree.Dict? {
        assert Keeps(e.tree.entries, path[1..], value);
        assert Recoverable(parent, path) && |path| > 1 && here != "";
        HasName(e.tree.entries, here);
        Complete(e.tree.entries, here, path[1..], value);
      }
    } else {
      assert e in front;
      CleanFront(entries);
      NamedFront(entries, parent);
      assert Keeps(front, path, value);
      Complete(front, parent, path, value);
      assert last.key != path[0];
      if !Hidden(last.key) {
        NotUnder(entries, parent, path, value);
      }
    }
  }

  lemma HasName(entries: seq<Entry>, parent: string)
    requires parent != ""
    ensures Named(entries, parent)
  {
  }

  lemma CleanFront(entries: seq<Entry>)
    requires Clean(entries) && entries != []
    ensures Clean(entries[..|entries|-1])
  {
    var front := entries[..|entries|-1];
    assert forall i :: 0 <= i < |front| ==> front[i] == entries[i];
  }

  lemma NamedFront(entries: seq<Entry>, parent: string)
    requires Named(entries, parent) && entries != []
    ensures Named(entries[..|entries|-1], parent)
  {
    var front := entries[..|entries|-1];
    assert forall path, value :: Keeps(front, path, value) ==> Keeps(entries, path, value);
  }

  /** What the last entry adds does not have the key of a path through another entry. */
  lemma NotUnder(entries: seq<Entry>, parent: string, path: Path, value: Tree)
    requires entries != [] && Clean(entries) && Named(entries, parent) && Keeps(entries, path, value)
    requires path[0] != entries[|entries|-1].key && !Hidden(entries[|entries|-1].key)
    ensures var last := entries[|entries|-1];
            && KeyOf(parent, path) != Join(parent, last.key)
            && (last.tree.Dict? ==> KeyOf(parent, path) !in FlattenDict(last.tree.entries, Join(parent, last.key)))
  {
    var last := entries[|entries|-1];
    var key := KeyOf(parent, path);
    KeptIsPlain(entries, path, value);
    if key == Join(parent, last.key) {
      assert KeyOf(parent, [last.key]) == key;
      KeyIsInjective(parent, path, [last.key]);
    }
    if last.tree.Dict? && key in FlattenDict(last.tree.entries, Join(parent, last.key)) {
      Sound(last.tree.entries, Join(parent, last.key), key);
      var rest :| Keeps(last.tree.entries, rest, FlattenDict(last.tree.entries, Join(parent, last.key))[key])
                  && KeyOf(Join(parent, last.key), rest) == key;
      KeptIsPlain(last.tree.entries, rest, FlattenDict(last.tree.entries, Join(parent, last.key))[key]);
      assert ([last.key] + rest)[1..] == rest;
      assert Keeps(entries, [last.key] + rest, FlattenDict(last.tree.entries, Join(parent, last.key))[key]);
      KeyIsInjective(parent, path, [last.key] + rest);
    }
  }

  /** The flat dict has an entry with this value whose key splits into the path. */
  ghost predicate Shows(entries: seq<Entry>, parent: string, path: Path, value: Tree) {
    exists key :: key in FlattenDict(entries, parent) && FlattenDict(entries, parent)[key] == value
                  && Split(key) == Base(parent) + path
  }

  lemma KeptIsShown(entries: seq<Entry>, parent: string, path: Path, value: Tree)
    requires Clean(entries) && Named(entries, parent) && Keeps(entries, path, value)
    ensures Shows(entries, parent, path, value)
  {
    KeptIsPlain(entries, path, value);
    Complete(entries, parent, path, value);
    SplitIsExact(parent, path);
    assert KeyOf(parent, path) in FlattenDict(entries, parent);
  }

  lemma ShownIsKept(entries: seq<Entry>, parent: string, path: Path, value: Tree)
    requires Clean(entries) && Shows(entries, parent, path, value)
    ensures Named(entries, parent) ==> Keeps(entries, path, value)
    ensures parent == "" ==> Recoverable(parent, path)
  {
    var key :| key in FlattenDict(entries, parent) && FlattenDict(entries, parent)[key] == value
               && Split(key) == Base(parent) + path;
    Sound(entries, parent, key);
    var other :| Keeps(entries, other, value) && KeyOf(parent, other) == key;
    KeptIsPlain(entries, other, value);
    if Recoverable(parent, other) {
      SplitIsExact(parent, other);
      SameEnd(Base(parent), other, path);
    }
    if parent == "" {
      TopSplit(other);
      assert Base(parent) + path == path;
    }
  }

  /** Splitting the keys of the flat dict undoes the flattening exactly when the parent has
      a name, or nothing is kept below an empty key at the top. */
  lemma FlatteningIsUndone(entries: seq<Entry>, parent: string)
    requires Clean(entries)
    ensures (forall path, value :: Keeps(entries, path, value) <==> Shows(entries, parent, path, value))
            <==> Named(entries, parent)
  {
    hide Shows;
    if Named(entries, parent) {
      forall path, value
        ensures Keeps(entries, path, value) <==> Shows(entries, parent, path, value)
      {
        if Keeps(entries, path, value) {
          KeptIsShown(entries, parent, path, value);
        }
        if Shows(entries, parent, path, value) {
          ShownIsKept(entries, parent, path, value);
        }
      }
    } else {
      var path, value :| Keeps(entries, path, value) && !Recoverable(parent, path);
      if Shows(entries, parent, path, value) {
        ShownIsKept(entries, parent, path, value);
      }
      assert Keeps(entries, path, value) && !Shows(entries, parent, path, value);
    }
  }
}
