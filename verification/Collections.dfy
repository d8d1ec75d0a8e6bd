/** A stored collection is the sequence of its documents in the order in which queries
    return them. A query keeps the documents that match; `RemoveAll` keeps the others. */
module Collections {

  function Where<T(!new)>(docs: seq<T>, p: T -> bool): (r: seq<T>)
    ensures |r| <= |docs|
    ensures forall d :: d in r <==> d in docs && p(d)
  {
    if docs == [] then []
    else if p(docs[0]) then [docs[0]] + Where(docs[1..], p)
    else Where(docs[1..], p)
  }

  function Map<T, U>(docs: seq<T>, f: T -> U): (r: seq<U>)
    ensures |r| == |docs|
    ensures forall i :: 0 <= i < |docs| ==> r[i] == f(docs[i])
  {
    if docs == [] then [] else [f(docs[0])] + Map(docs[1..], f)
  }

  /** No two documents have the same key. */
  ghost predicate DistinctBy<T(!new), K(!new)>(docs: seq<T>, key: T -> K) {
    forall i, j :: 0 <= i < j < |docs| ==> key(docs[i]) != key(docs[j])
  }

  lemma {:induction false} WhereConcat<T(!new)>(a: seq<T>, b: seq<T>, p: T -> bool)
    ensures Where(a + b, p) == Where(a, p) + Where(b, p)
  {
    if a == [] {
      assert a + b == b;
    } else {
      assert (a + b)[1..] == a[1..] + b;
      WhereConcat(a[1..], b, p);
    }
  }

  lemma {:induction false} MapConcat<T, U>(a: seq<T>, b: seq<T>, f: T -> U)
    ensures Map(a + b, f) == Map(a, f) + Map(b, f)
  {
    if a == [] {
      assert a + b == b;
    } else {
      assert (a + b)[1..] == a[1..] + b;
      MapConcat(a[1..], b, f);
    }
  }

  lemma {:induction false} WhereDistinct<T(!new), K(!new)>(docs: seq<T>, p: T -> bool, key: T -> K)
    requires DistinctBy(docs, key)
    ensures DistinctBy(Where(docs, p), key)
  {
    if docs != [] {
      assert forall i, j :: 0 <= i < j < |docs[1..]| ==> key(docs[1..][i]) != key(docs[1..][j]);
      WhereDistinct(docs[1..], p, key);
      var r := Where(docs, p);
      var rest := Where(docs[1..], p);
      forall i, j | 0 <= i < j < |r|
        ensures key(r[i]) != key(r[j])
      {
        if p(docs[0]) {
          assert r[j] == rest[j - 1];
          assert r[j] in docs[1..];
        }
      }
    }
  }

  /** How often a document occurs in what a query returns. */
  lemma {:induction false} WhereCount<T(!new)>(docs: seq<T>, p: T -> bool, d: T)
    ensures multiset(Where(docs, p))[d] == if p(d) then multiset(docs)[d] else 0
  {
    if docs != [] {
      assert docs == [docs[0]] + docs[1..];
      WhereCount(docs[1..], p, d);
    }
  }

  lemma DistinctCount<T(!new), K(!new)>(docs: seq<T>, key: T -> K, d: T)
    requires DistinctBy(docs, key)
    ensures multiset(docs)[d] == if d in docs then 1 else 0
  {
    if d in docs {
      var i :| 0 <= i < |docs| && docs[i] == d;
      assert docs == docs[..i] + [d] + docs[i+1..];
      assert d !in docs[..i];
      assert d !in docs[i+1..];
    }
  }

  lemma DifferentKeys<T(!new), K(!new)>(docs: seq<T>, key: T -> K, a: T, b: T)
    requires DistinctBy(docs, key) && a in docs && b in docs && a != b
    ensures key(a) != key(b)
  {
    var i :| 0 <= i < |docs| && docs[i] == a;
    var j :| 0 <= j < |docs| && docs[j] == b;
  }

  lemma SameIndex<T(!new), K(!new)>(docs: seq<T>, key: T -> K, i: nat, j: nat)
    requires DistinctBy(docs, key) && i < |docs| && j < |docs| && key(docs[i]) == key(docs[j])
    ensures i == j
  {
  }

  lemma OnceApart<T>(docs: seq<T>, i: nat, j: nat)
    requires i < j < |docs| && multiset(docs)[docs[i]] <= 1
    ensures docs[i] != docs[j]
  {
    var a, b := docs[..j], docs[j..];
    assert docs == a + b;
    assert docs[i] == a[i] && docs[j] == b[0];
    assert multiset(docs) == multiset(a) + multiset(b);
  }

  lemma SameKey<T(!new), K(!new)>(docs: seq<T>, key: T -> K, a: T, b: T)
    requires DistinctBy(docs, key) && a in docs && b in docs && key(a) == key(b)
    ensures a == b
  {
    var i :| 0 <= i < |docs| && docs[i] == a;
    var j :| 0 <= j < |docs| && docs[j] == b;
  }

  /** Two queries, one after the other, are one query. */
  lemma {:induction false} WhereWhere<T(!new)>(docs: seq<T>, p: T -> bool, q: T -> bool, both: T -> bool)
    requires forall d :: d in docs ==> (both(d) <==> p(d) && q(d))
    ensures Where(Where(docs, p), q) == Where(docs, both)
  {
    if docs != [] {
      assert docs[0] in docs;
      assert forall d :: d in docs[1..] ==> d in docs;
      WhereWhere(docs[1..], p, q, both);
      if p(docs[0]) {
        assert Where(docs, p)[1..] == Where(docs[1..], p);
      }
    }
  }

  lemma WhereLast<T(!new)>(docs: seq<T>, n: nat, p: T -> bool)
    requires n < |docs|
    ensures Where(docs[..n + 1], p) == Where(docs[..n], p) + if p(docs[n]) then [docs[n]] else []
  {
    assert docs[..n + 1] == docs[..n] + [docs[n]];
    WhereConcat(docs[..n], [docs[n]], p);
    assert Where([docs[n]], p) == if p(docs[n]) then [docs[n]] else [];
  }

  lemma MapLast<T, U>(docs: seq<T>, n: nat, f: T -> U)
    requires n < |docs|
    ensures Map(docs[..n + 1], f) == Map(docs[..n], f) + [f(docs[n])]
  {
    assert docs[..n + 1] == docs[..n] + [docs[n]];
    MapConcat(docs[..n], [docs[n]], f);
  }

  /** How often a key occurs among the keys of distinct documents. */
  lemma {:induction false} MapCount<T(!new), K(!new)>(docs: seq<T>, key: T -> K, k: K)
    requires DistinctBy(docs, key)
    ensures multiset(Map(docs, key))[k] == if exists d :: d in docs && key(d) == k then 1 else 0
  {
    if docs != [] {
      assert forall i :: 0 <= i < |docs[1..]| ==> docs[1..][i] == docs[i + 1];
      MapCount(docs[1..], key, k);
      assert Map(docs, key) == [key(docs[0])] + Map(docs[1..], key);
      assert forall d :: d in docs <==> d == docs[0] || d in docs[1..];
      if exists d :: d in docs[1..] && key(d) == k {
        var d :| d in docs[1..] && key(d) == k;
        var i :| 0 <= i < |docs[1..]| && docs[1..][i] == d;
        assert key(docs[0]) != key(docs[i + 1]);
      }
    }
  }
}
