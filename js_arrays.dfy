/** The few JavaScript built-ins the storefront's pages rely on, stated as
    pure functions over sequences: `Array.prototype.find`, `filter`, `slice`,
    and a `Map` built from key/value pairs, read back through `values()`. */
module JsArrays {

  /** A value or `undefined`. */
  datatype Option<+T> = None | Some(value: T)

  // ---------------------------------------------------------------------
  // Array.prototype.find

  /** The first element that passes, or `undefined` when none does. */
  function Find<T>(s: seq<T>, pass: T -> bool): (r: Option<T>)
    ensures r.None? <==> forall i :: 0 <= i < |s| ==> !pass(s[i])
    ensures r.Some? ==> exists i :: 0 <= i < |s| && FirstPassing(s, pass, i) && s[i] == r.value
  {
    if s == [] then None
    else if pass(s[0]) then
      assert FirstPassing(s, pass, 0);
      Some(s[0])
    else
      var r := Find(s[1..], pass);
      assert r.Some? ==> exists i :: 0 <= i < |s| && FirstPassing(s, pass, i) && s[i] == r.value by {
        if r.Some? {
          var i :| 0 <= i < |s[1..]| && FirstPassing(s[1..], pass, i) && s[1..][i] == r.value;
          assert FirstPassing(s, pass, i + 1);
        }
      }
      r
  }

  /** `s[i]` passes and no element before it does. */
  ghost predicate FirstPassing<T>(s: seq<T>, pass: T -> bool, i: int)
    requires 0 <= i < |s|
  {
    pass(s[i]) && forall j :: 0 <= j < i ==> !pass(s[j])
  }

  // ---------------------------------------------------------------------
  // Array.prototype.filter

  /** `r` is obtained from `s` by deleting elements, without reordering
      (greedy matching decides this exactly). */
  predicate IsSubsequence<T(==)>(r: seq<T>, s: seq<T>)
  {
    if r == [] then true
    else if s == [] then false
    else if r[0] == s[0] then IsSubsequence(r[1..], s[1..])
    else IsSubsequence(r, s[1..])
  }

  /** The elements that pass, in their original order. */
  function Filter<T>(s: seq<T>, keep: T -> bool): (r: seq<T>)
    ensures |r| <= |s|
  {
    if s == [] then []
    else if keep(s[0]) then [s[0]] + Filter(s[1..], keep)
    else Filter(s[1..], keep)
  }

  /** `filter` keeps exactly the elements that pass, every occurrence of
      each, without reordering them. */
  lemma FilterSpec<T>(s: seq<T>, keep: T -> bool)
    ensures var r := Filter(s, keep);
      && (forall i :: 0 <= i < |r| ==> r[i] in s && keep(r[i]))
      && (forall i :: 0 <= i < |s| && keep(s[i]) ==> s[i] in r)
      && (forall x :: multiset(r)[x] == if keep(x) then multiset(s)[x] else 0)
      && IsSubsequence(r, s)
  {
    FilterMembers(s, keep);
    FilterCounts(s, keep);
  }

  /** What `filter` keeps passes and comes from `s`, what passes is kept,
      and the order is that of `s`. */
  lemma {:induction false} FilterMembers<T>(s: seq<T>, keep: T -> bool)
    ensures var r := Filter(s, keep);
      && (forall i :: 0 <= i < |r| ==> r[i] in s && keep(r[i]))
      && (forall i :: 0 <= i < |s| && keep(s[i]) ==> s[i] in r)
      && IsSubsequence(r, s)
  {
    if s != [] {
      FilterMembers(s[1..], keep);
      var r, t := Filter(s, keep), Filter(s[1..], keep);
      if keep(s[0]) {
        assert r == [s[0]] + t;
        assert r[1..] == t;
        forall i | 0 < i < |s| && keep(s[i]) ensures s[i] in r {
          assert s[1..][i - 1] == s[i];
        }
      } else {
        assert r == t;
        assert t != [] ==> keep(t[0]) && t[0] != s[0];
        forall i | 0 < i < |s| && keep(s[i]) ensures s[i] in r {
          assert s[1..][i - 1] == s[i];
        }
      }
    }
  }

  /** `filter` keeps as many copies of a passing value as the input has,
      and none of a failing one. */
  lemma {:induction false} FilterCounts<T>(s: seq<T>, keep: T -> bool)
    ensures forall x :: multiset(Filter(s, keep))[x] == if keep(x) then multiset(s)[x] else 0
  {
    if s != [] {
      FilterCounts(s[1..], keep);
      assert s == [s[0]] + s[1..];
      assert multiset(s) == multiset{s[0]} + multiset(s[1..]);
      if keep(s[0]) {
        assert multiset(Filter(s, keep)) == multiset{s[0]} + multiset(Filter(s[1..], keep));
      }
    }
  }

  /** Filtering with a test every element passes keeps the whole sequence. */
  lemma {:induction false} FilterKeepsAll<T>(s: seq<T>, keep: T -> bool)
    requires forall i :: 0 <= i < |s| ==> keep(s[i])
    ensures Filter(s, keep) == s
  {
    if s != [] {
      FilterKeepsAll(s[1..], keep);
    }
  }

  /** Filtering with two tests that agree on every element gives the same result. */
  lemma {:induction false} FilterSameTest<T>(s: seq<T>, keep: T -> bool, keep': T -> bool)
    requires forall i :: 0 <= i < |s| ==> keep(s[i]) == keep'(s[i])
    ensures Filter(s, keep) == Filter(s, keep')
  {
    if s != [] {
      FilterSameTest(s[1..], keep, keep');
    }
  }

  /** When `s[i]` is the only element that passes, `find` returns it. */
  lemma {:induction false} FindOnly<T>(s: seq<T>, pass: T -> bool, i: nat)
    requires i < |s| && pass(s[i])
    requires forall j :: 0 <= j < |s| && j != i ==> !pass(s[j])
    ensures Find(s, pass) == Some(s[i])
  {
    if i > 0 {
      FindOnly(s[1..], pass, i - 1);
    }
  }

  /** When `s[i]` is the only element that fails, `filter` drops just it. */
  lemma {:induction false} FilterDropsOnly<T>(s: seq<T>, keep: T -> bool, i: nat)
    requires i < |s| && !keep(s[i])
    requires forall j :: 0 <= j < |s| && j != i ==> keep(s[j])
    ensures Filter(s, keep) == s[..i] + s[i + 1..]
  {
    if i == 0 {
      FilterKeepsAll(s[1..], keep);
    } else {
      FilterDropsOnly(s[1..], keep, i - 1);
      assert s[..i] == [s[0]] + s[1..][..i - 1];
      assert s[i + 1..] == s[1..][i..];
    }
  }

  // ---------------------------------------------------------------------
  // Array.prototype.slice

  /** How `slice` reads an index argument: a negative one counts back from
      the end, and the result is clamped to `[0, len]`. */
  function RelativeIndex(i: int, len: nat): (k: nat)
    ensures k <= len
    ensures 0 <= i <= len ==> k == i
  {
    if i < 0 then (if len + i < 0 then 0 else len + i)
    else if i > len then len
    else i
  }

  /** `s.slice(start, end)`. */
  function Slice<T>(s: seq<T>, start: int, end: int): (r: seq<T>)
    ensures |r| <= |s|
  {
    var a, b := RelativeIndex(start, |s|), RelativeIndex(end, |s|);
    if a < b then s[a..b] else []
  }

  // ---------------------------------------------------------------------
  // [...new Map(items.map(x => [id(x), x])).values()]

  /** The id of each item, in order. */
  function Ids<T, K>(items: seq<T>, id: T -> K): (r: seq<K>)
    ensures |r| == |items|
    ensures forall i :: 0 <= i < |items| ==> r[i] == id(items[i])
  {
    seq(|items|, i requires 0 <= i < |items| => id(items[i]))
  }

  /** No element twice. */
  predicate Distinct<K(==)>(s: seq<K>)
  {
    forall i, j :: 0 <= i < j < |s| ==> s[i] != s[j]
  }

  /** Reference definition: the distinct elements of `s`, in the order in
      which they first occur. */
  function Dedup<K(==)>(s: seq<K>): (d: seq<K>)
  {
    if s == [] then []
    else
      var n := |s| - 1;
      var d := Dedup(s[..n]);
      if s[n] in d then d else d + [s[n]]
  }

  /** Index of the first occurrence of `x` in `s`. */
  function FirstIndexOf<K(==)>(s: seq<K>, x: K): (i: nat)
    requires x in s
    ensures i < |s| && s[i] == x && x !in s[..i]
  {
    var n := |s| - 1;
    if x in s[..n] then
      var i := FirstIndexOf(s[..n], x);
      assert s[..n][..i] == s[..i];
      i
    else
      n
  }

  lemma {:induction false} DedupSameElements<K>(s: seq<K>)
    ensures forall x :: x in Dedup(s) <==> x in s
  {
    if s != [] {
      var n := |s| - 1;
      DedupSameElements(s[..n]);
      assert s == s[..n] + [s[n]];
    }
  }

  lemma {:induction false} DedupDistinct<K>(s: seq<K>)
    ensures Distinct(Dedup(s))
  {
    if s != [] {
      DedupDistinct(s[..|s| - 1]);
    }
  }

  /** Elements of `Dedup(s)` appear in the order of their first occurrence in `s`. */
  lemma {:induction false} DedupFirstOccurrenceOrder<K>(s: seq<K>)
    ensures forall x :: x in Dedup(s) ==> x in s
    ensures forall i, j :: 0 <= i < j < |Dedup(s)| ==> FirstIndexOf(s, Dedup(s)[i]) < FirstIndexOf(s, Dedup(s)[j])
  {
    DedupSameElements(s);
    if s != [] {
      var n := |s| - 1;
      var front := s[..n];
      DedupFirstOccurrenceOrder(front);
      DedupSameElements(front);
      FirstIndexInFront(s);
      var d0, d := Dedup(front), Dedup(s);
      forall i, j | 0 <= i < j < |d| ensures FirstIndexOf(s, d[i]) < FirstIndexOf(s, d[j]) {
        assert d[i] == d0[i] && d[i] in front;
        if j < |d0| {
          assert d[j] == d0[j];
        } else {
          assert d[j] == s[n] && s[n] !in front;
        }
      }
    }
  }

  /** An element of the front of `s` is first found where the front has it
      first; the last element, when new, is first found at the end. */
  lemma FirstIndexInFront<K>(s: seq<K>)
    requires s != []
    ensures var n := |s| - 1;
      && (forall x :: x in s[..n] ==> FirstIndexOf(s, x) == FirstIndexOf(s[..n], x) < n)
      && (s[n] !in s[..n] ==> FirstIndexOf(s, s[n]) == n)
  {
    var n := |s| - 1;
    var front := s[..n];
    forall x | x in front ensures FirstIndexOf(s, x) == FirstIndexOf(front, x) < n {
      var i := FirstIndexOf(front, x);
      assert s[i] == x;
      assert s[..i] == front[..i];
    }
  }

  /** The last item of `items` whose id is `k`. */
  function LastWithId<T, K(==)>(items: seq<T>, id: T -> K, k: K): (x: T)
    requires k in Ids(items, id)
    ensures id(x) == k
  {
    var n := |items| - 1;
    if id(items[n]) == k then items[n]
    else
      assert Ids(items, id) == Ids(items[..n], id) + [id(items[n])];
      LastWithId(items[..n], id, k)
  }

  /** `LastWithId` picks an item of `items`, and no later item has that id. */
  lemma {:induction false} LastWithIdIsLast<T, K>(items: seq<T>, id: T -> K, k: K)
    requires k in Ids(items, id)
    ensures exists i :: 0 <= i < |items| && items[i] == LastWithId(items, id, k)
                        && forall j :: i < j < |items| ==> id(items[j]) != k
  {
    var n := |items| - 1;
    if id(items[n]) != k {
      assert Ids(items, id) == Ids(items[..n], id) + [id(items[n])];
      LastWithIdIsLast(items[..n], id, k);
      var i :| 0 <= i < n && items[..n][i] == LastWithId(items[..n], id, k)
               && forall j :: i < j < n ==> id(items[..n][j]) != k;
      assert items[i] == LastWithId(items, id, k);
    }
  }

  /** The keys of a `Map`, in insertion order. */
  function Keys<K, V>(m: seq<(K, V)>): (r: seq<K>)
    ensures |r| == |m|
    ensures forall i :: 0 <= i < |m| ==> r[i] == m[i].0
  {
    seq(|m|, i requires 0 <= i < |m| => m[i].0)
  }

  /** `m.set(k, v)`: the first entry with key `k` takes the new value; with
      no such entry, one is appended. */
  function MapSet<K(==), V>(m: seq<(K, V)>, k: K, v: V): (r: seq<(K, V)>)
    ensures |r| == |m| || |r| == |m| + 1
  {
    if m == [] then [(k, v)]
    else if m[0].0 == k then [(k, v)] + m[1..]
    else [m[0]] + MapSet(m[1..], k, v)
  }

  /** On a map with distinct keys, an existing key keeps its place and takes
      the new value, every other entry is unchanged, and a new key goes to
      the end. */
  lemma {:induction false} MapSetSpec<K, V>(m: seq<(K, V)>, k: K, v: V)
    requires Distinct(Keys(m))
    ensures var r := MapSet(m, k, v);
      && Keys(r) == (if k in Keys(m) then Keys(m) else Keys(m) + [k])
      && (forall i :: 0 <= i < |m| ==> r[i].1 == if m[i].0 == k then v else m[i].1)
      && (k !in Keys(m) ==> r[|m|] == (k, v))
  {
    if m != [] {
      var r := MapSet(m, k, v);
      KeysCons(m);
      KeysCons(r);
      if m[0].0 == k {
        assert r[1..] == m[1..];
        forall i | 0 < i < |m| ensures m[i].0 != k {
          assert Keys(m)[0] != Keys(m)[i];
        }
      } else {
        MapSetSpec(m[1..], k, v);
        assert r[1..] == MapSet(m[1..], k, v);
        forall i | 0 < i < |m| ensures r[i] == r[1..][i - 1] && m[i] == m[1..][i - 1] {
        }
      }
    }
  }

  lemma KeysCons<K, V>(m: seq<(K, V)>)
    requires m != []
    ensures Keys(m) == [m[0].0] + Keys(m[1..])
  {
  }

  /** `new Map(items.map(x => [id(x), x]))`: every item set in turn under its id. */
  function NewMap<T, K(==)>(items: seq<T>, id: T -> K): (m: seq<(K, T)>)
    ensures Keys(m) == Dedup(Ids(items, id))
    ensures forall i :: 0 <= i < |m| ==> m[i].0 in Ids(items, id) && m[i].1 == LastWithId(items, id, m[i].0)
  {
    if items == [] then []
    else
      var n := |items| - 1;
      var m0 := NewMap(items[..n], id);
      DedupDistinct(Ids(items[..n], id));
      var m := MapSet(m0, id(items[n]), items[n]);
      NewMapStep(items, id, m0, m);
      m
  }

  /** Setting the last item into the map of the items before it gives the
      map of all of them. */
  lemma NewMapStep<T, K>(items: seq<T>, id: T -> K, m0: seq<(K, T)>, m: seq<(K, T)>)
    requires items != []
    requires var front := items[..|items| - 1];
      && Keys(m0) == Dedup(Ids(front, id))
      && (forall i :: 0 <= i < |m0| ==> m0[i].0 in Ids(front, id) && m0[i].1 == LastWithId(front, id, m0[i].0))
      && Distinct(Keys(m0))
    requires m == MapSet(m0, id(items[|items| - 1]), items[|items| - 1])
    ensures Keys(m) == Dedup(Ids(items, id))
    ensures forall i :: 0 <= i < |m| ==>
      m[i].0 in Ids(items, id) && m[i].1 == LastWithId(items, id, m[i].0)
  {
    var n := |items| - 1;
    var front, x := items[..n], items[n];
    var k := id(x);
    LastItemFacts(items, id);
    MapSetSpec(m0, k, x);
    assert Keys(m) == Dedup(Ids(items, id));
    forall i | 0 <= i < |m|
      ensures m[i].0 in Ids(items, id) && m[i].1 == LastWithId(items, id, m[i].0)
    {
      if i < |m0| {
        var q := m0[i].0;
        assert m[i].0 == q by { assert Keys(m)[i] == Keys(m0)[i]; }
        assert q in Ids(front, id);
        if q != k {
          assert m[i].1 == m0[i].1 == LastWithId(front, id, q);
        }
      } else {
        assert k !in Keys(m0) && i == |m0|;
        assert m[i] == (k, x);
      }
    }
  }

  /** What the last item adds to the ids, their `Dedup`, and the last item of each id. */
  lemma LastItemFacts<T, K>(items: seq<T>, id: T -> K)
    requires items != []
    ensures var n := |items| - 1;
      && Ids(items, id) == Ids(items[..n], id) + [id(items[n])]
      && Dedup(Ids(items, id)) ==
           (if id(items[n]) in Dedup(Ids(items[..n], id)) then Dedup(Ids(items[..n], id))
            else Dedup(Ids(items[..n], id)) + [id(items[n])])
      && LastWithId(items, id, id(items[n])) == items[n]
      && forall k :: k in Ids(items[..n], id) && k != id(items[n]) ==>
           LastWithId(items, id, k) == LastWithId(items[..n], id, k)
  {
    var n := |items| - 1;
    LastItemIds(items, id);
    assert Ids(items, id)[..n] == Ids(items[..n], id);
    LastItemLastWithId(items, id);
  }

  lemma LastItemIds<T, K>(items: seq<T>, id: T -> K)
    requires items != []
    ensures Ids(items, id) == Ids(items[..|items| - 1], id) + [id(items[|items| - 1])]
  {
  }

  lemma LastItemLastWithId<T, K>(items: seq<T>, id: T -> K)
    requires items != []
    ensures var n := |items| - 1;
      forall k :: k in Ids(items[..n], id) && k != id(items[n]) ==>
        k in Ids(items, id) && LastWithId(items, id, k) == LastWithId(items[..n], id, k)
  {
    var n := |items| - 1;
    LastItemIds(items, id);
  }

  /** `[...m.values()]`. */
  function Values<K, V>(m: seq<(K, V)>): (r: seq<V>)
    ensures |r| == |m|
    ensures forall i :: 0 <= i < |m| ==> r[i] == m[i].1
  {
    seq(|m|, i requires 0 <= i < |m| => m[i].1)
  }

  /** `[...new Map(items.map(x => [id(x), x])).values()]`: the distinct ids
      in order of first occurrence, each with the last item that carries it. */
  function UniqueBy<T, K(==)>(items: seq<T>, id: T -> K): (r: seq<T>)
    ensures Ids(r, id) == Dedup(Ids(items, id))
    ensures forall j :: 0 <= j < |r| ==> id(r[j]) in Ids(items, id) && r[j] == LastWithId(items, id, id(r[j]))
  {
    var m := NewMap(items, id);
    var r := Values(m);
    assert forall j :: 0 <= j < |r| ==> id(r[j]) == Keys(m)[j];
    r
  }

  /** The items `UniqueBy` keeps have distinct ids, cover every id of
      `items`, carry only ids of `items`, and come in the order in which
      their ids first occur. */
  lemma UniqueBySpec<T, K>(items: seq<T>, id: T -> K)
    ensures var r := UniqueBy(items, id);
      && (forall j, j' :: 0 <= j < j' < |r| ==> id(r[j]) != id(r[j']))
      && (forall i :: 0 <= i < |items| ==> exists j :: 0 <= j < |r| && id(r[j]) == id(items[i]))
      && (forall j :: 0 <= j < |r| ==> id(r[j]) in Ids(items, id))
      && (forall j, j' :: 0 <= j < j' < |r| ==>
            FirstIndexOf(Ids(items, id), id(r[j])) < FirstIndexOf(Ids(items, id), id(r[j'])))
  {
    var r := UniqueBy(items, id);
    var ids, rids := Ids(items, id), Ids(r, id);
    assert rids == Dedup(ids);
    DedupDistinct(ids);
    DedupSameElements(ids);
    DedupFirstOccurrenceOrder(ids);
    forall i | 0 <= i < |items| ensures exists j :: 0 <= j < |r| && id(r[j]) == id(items[i]) {
      assert ids[i] in rids;
    }
  }
}
