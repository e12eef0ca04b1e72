/** Sequences seen as multisets, first occurrences, and the stable sort by a text key
    that stands for Python's sorted. */
module Sequences {
  function RemoveAt<T>(s: seq<T>, i: nat): seq<T>
    requires i < |s|
  {
    s[..i] + s[i + 1..]
  }

  lemma RemoveFromBoth<T(!new)>(a: seq<T>, b: seq<T>, j: nat)
    requires a != [] && j < |b| && b[j] == a[|a| - 1] && multiset(a) <= multiset(b)
    ensures multiset(a[..|a| - 1]) <= multiset(RemoveAt(b, j))
    ensures |a| == |b| ==> multiset(a[..|a| - 1]) == multiset(RemoveAt(b, j))
  {
    assert a == a[..|a| - 1] + [b[j]];
    assert b == b[..j] + [b[j]] + b[j + 1..];
    var m, n := multiset(a[..|a| - 1]), multiset(RemoveAt(b, j));
    assert multiset(a) == m + multiset{b[j]} && multiset(b) == n + multiset{b[j]};
    forall x ensures m[x] <= n[x] {
      assert multiset(a)[x] <= multiset(b)[x];
    }
    SameSize(m, n);
  }

  lemma SameSize<T>(m: multiset<T>, n: multiset<T>)
    requires m <= n
    ensures |m| == |n| ==> m == n
  {
    assert n == m + (n - m);
  }

  lemma FindLast<T>(a: seq<T>, b: seq<T>) returns (j: nat)
    requires a != [] && multiset(a) <= multiset(b)
    ensures j < |b| && b[j] == a[|a| - 1]
  {
    assert a[|a| - 1] in multiset(a);
    assert a[|a| - 1] in multiset(b);
    j :| 0 <= j < |b| && b[j] == a[|a| - 1];
  }

  // ----- distinct elements and first occurrences -----

  predicate Distinct<T(==)>(s: seq<T>) {
    forall i, j :: 0 <= i < j < |s| ==> s[i] != s[j]
  }

  function Elements<T>(s: seq<T>): set<T> {
    set x | x in s
  }

  /** Python's len(s) == len(set(s)) test for duplicates. */
  lemma {:induction false} DistinctBySize<T>(s: seq<T>)
    ensures |Elements(s)| <= |s|
    ensures Distinct(s) <==> |Elements(s)| == |s|
  {
    if s != [] {
      var t, x := s[..|s| - 1], s[|s| - 1];
      DistinctBySize(t);
      assert s == t + [x];
      assert Elements(s) == Elements(t) + {x};
      if Distinct(s) {
        assert x !in t;
      } else if Distinct(t) {
        assert x in t;
      }
    }
  }

  lemma ElementsPush<T>(t: seq<T>, x: T)
    ensures Elements(t + [x]) == Elements(t) + {x}
  {}

  /** The keys in the order a dictionary filled from left to right holds them. */
  function FirstOccurrences<T(==)>(s: seq<T>): (r: seq<T>)
    ensures Distinct(r) && |r| <= |s|
    ensures Elements(r) == Elements(s)
  {
    if s == [] then []
    else
      var t, x := s[..|s| - 1], s[|s| - 1];
      assert s == t + [x];
      ElementsPush(t, x);
      var r := FirstOccurrences(t);
      ElementsPush(r, x);
      assert x in r <==> x in Elements(r);
      if x in r then r else r + [x]
  }

  /** The values whose key is k, in order. */
  function Chosen<K(==), V>(keys: seq<K>, values: seq<V>, k: K): seq<V>
    requires |keys| == |values|
  {
    if keys == [] then []
    else
      var init := Chosen(keys[..|keys| - 1], values[..|keys| - 1], k);
      if keys[|keys| - 1] == k then init + [values[|keys| - 1]] else init
  }

  lemma {:induction false} NoneChosen<K, V>(keys: seq<K>, values: seq<V>, k: K)
    requires |keys| == |values| && k !in keys
    ensures Chosen(keys, values, k) == []
  {
    if keys != [] {
      NoneChosen(keys[..|keys| - 1], values[..|keys| - 1], k);
    }
  }

  /** A dictionary of lists, with its insertion order, that groups values by key. */
  predicate Groups<K(==), V(==)>(order: seq<K>, groups: map<K, seq<V>>, keys: seq<K>, values: seq<V>)
    requires |keys| == |values|
  {
    && order == FirstOccurrences(keys)
    && groups.Keys == Elements(order)
    && forall k :: k in groups ==> groups[k] == Chosen(keys, values, k)
  }

  lemma GroupsStep<K, V>(order: seq<K>, groups: map<K, seq<V>>, keys: seq<K>, values: seq<V>, k: K, v: V)
    requires |keys| == |values| && Groups(order, groups, keys, values)
    ensures var isNew := k !in groups;
            Groups(if isNew then order + [k] else order,
                   groups[k := (if isNew then [] else groups[k]) + [v]],
                   keys + [k], values + [v])
  {
    var ks, vs := keys + [k], values + [v];
    assert ks[..|keys|] == keys && vs[..|keys|] == values;
    ElementsPush(order, k);
    assert k in order <==> k in Elements(order);
    if k !in groups {
      assert k in keys <==> k in Elements(keys);
      NoneChosen(keys, values, k);
    }
  }

  /** groups.setdefault(key, []).append(value), for every value in turn. */
  method GroupBy<K(==), V(==)>(keys: seq<K>, values: seq<V>) returns (order: seq<K>, groups: map<K, seq<V>>)
    requires |keys| == |values|
    ensures Groups(order, groups, keys, values)
  {
    order, groups := [], map[];
    for i := 0 to |keys|
      invariant Groups(order, groups, keys[..i], values[..i])
    {
      var k, v := keys[i], values[i];
      assert keys[..i + 1] == keys[..i] + [k] && values[..i + 1] == values[..i] + [v];
      GroupsStep(order, groups, keys[..i], values[..i], k, v);
      if k !in groups {
        order, groups := order + [k], groups[k := []];
      }
      groups := groups[k := groups[k] + [v]];
    }
    assert keys[..|keys|] == keys && values[..|keys|] == values;
  }

  lemma SameElements<T(!new)>(a: seq<T>, b: seq<T>)
    requires multiset(a) == multiset(b)
    ensures |a| == |b| && Elements(a) == Elements(b)
    ensures Distinct(a) <==> Distinct(b)
  {
    assert |a| == |multiset(a)| == |b|;
    forall x ensures x in a <==> x in b {
      assert x in multiset(a) <==> x in multiset(b);
    }
    DistinctBySize(a);
    DistinctBySize(b);
  }

  lemma {:induction false} DistinctMultiset<T(!new)>(a: seq<T>, b: seq<T>)
    requires Distinct(a) && Distinct(b) && Elements(a) == Elements(b)
    ensures multiset(a) == multiset(b)
  {
    forall x ensures multiset(a)[x] == multiset(b)[x] {
      DistinctCount(a, x);
      DistinctCount(b, x);
      assert x in Elements(a) <==> x in a;
      assert x in Elements(b) <==> x in b;
    }
  }

  lemma {:induction false} DistinctCount<T>(s: seq<T>, x: T)
    requires Distinct(s)
    ensures multiset(s)[x] == if x in s then 1 else 0
  {
    if s != [] {
      var t, y := s[..|s| - 1], s[|s| - 1];
      DistinctCount(t, x);
      assert s == t + [y];
    }
  }

  // ----- orders on texts and on tuples of texts -----

  /** Code point order of texts. */
  predicate TextLess(a: string, b: string) {
    b != [] && (a == [] || a[0] < b[0] || (a[0] == b[0] && TextLess(a[1..], b[1..])))
  }

  lemma {:induction false} TextOrder(a: string, b: string)
    ensures a != b <==> TextLess(a, b) || TextLess(b, a)
    ensures !(TextLess(a, b) && TextLess(b, a))
  {
    if a != [] && b != [] {
      TextOrder(a[1..], b[1..]);
      assert a == [a[0]] + a[1..] && b == [b[0]] + b[1..];
    }
  }

  lemma {:induction false} TextTransitive(a: string, b: string, c: string)
    requires TextLess(a, b) && TextLess(b, c)
    ensures TextLess(a, c)
  {
    if a != [] && a[0] == b[0] == c[0] {
      TextTransitive(a[1..], b[1..], c[1..]);
    }
  }

  /** A sort key: a tuple of texts, compared component by component. */
  type SortKey = seq<string>

  predicate KeyLess(a: SortKey, b: SortKey) {
    b != [] && (a == [] || TextLess(a[0], b[0]) || (a[0] == b[0] && KeyLess(a[1..], b[1..])))
  }

  lemma {:induction false} KeyOrder(a: SortKey, b: SortKey)
    ensures a != b <==> KeyLess(a, b) || KeyLess(b, a)
    ensures !(KeyLess(a, b) && KeyLess(b, a))
  {
    if a != [] && b != [] {
      TextOrder(a[0], b[0]);
      KeyOrder(a[1..], b[1..]);
      assert a == [a[0]] + a[1..] && b == [b[0]] + b[1..];
    }
  }

  lemma {:induction false} KeyTransitive(a: SortKey, b: SortKey, c: SortKey)
    requires KeyLess(a, b) && KeyLess(b, c)
    ensures KeyLess(a, c)
  {
    if a != [] {
      TextOrder(a[0], a[0]);
      if a[0] == b[0] == c[0] {
        KeyTransitive(a[1..], b[1..], c[1..]);
      } else if a[0] != b[0] && b[0] != c[0] {
        TextTransitive(a[0], b[0], c[0]);
      }
    }
  }

  // ----- stable sort -----

  /** Insert after every element whose key is not greater. */
  function Insert<T>(x: T, s: seq<T>, key: T -> SortKey): seq<T> {
    if s == [] then [x]
    else if KeyLess(key(x), key(s[|s| - 1])) then Insert(x, s[..|s| - 1], key) + [s[|s| - 1]]
    else s + [x]
  }

  /** Stable ascending sort. */
  function SortBy<T>(s: seq<T>, key: T -> SortKey): seq<T> {
    if s == [] then [] else Insert(s[|s| - 1], SortBy(s[..|s| - 1], key), key)
  }

  predicate StrictlySorted<T>(s: seq<T>, key: T -> SortKey) {
    forall i, j :: 0 <= i < j < |s| ==> KeyLess(key(s[i]), key(s[j]))
  }

  predicate DistinctKeys<T>(s: seq<T>, key: T -> SortKey) {
    forall i, j :: 0 <= i < j < |s| ==> key(s[i]) != key(s[j])
  }

  lemma {:induction false} InsertContents<T>(x: T, s: seq<T>, key: T -> SortKey)
    ensures multiset(Insert(x, s, key)) == multiset(s) + multiset{x}
  {
    if s != [] && KeyLess(key(x), key(s[|s| - 1])) {
      InsertContents(x, s[..|s| - 1], key);
      assert s == s[..|s| - 1] + [s[|s| - 1]];
    }
  }

  lemma {:induction false} SortContents<T(!new)>(s: seq<T>, key: T -> SortKey)
    ensures multiset(SortBy(s, key)) == multiset(s)
    ensures |SortBy(s, key)| == |s| && Elements(SortBy(s, key)) == Elements(s)
  {
    if s != [] {
      SortContents(s[..|s| - 1], key);
      InsertContents(s[|s| - 1], SortBy(s[..|s| - 1], key), key);
      assert s == s[..|s| - 1] + [s[|s| - 1]];
    }
    SameElements(SortBy(s, key), s);
  }

  lemma SortMembers<T(!new)>(s: seq<T>, key: T -> SortKey)
    ensures forall i :: 0 <= i < |SortBy(s, key)| ==> SortBy(s, key)[i] in s
    ensures forall i :: 0 <= i < |s| ==> s[i] in SortBy(s, key)
  {
    SortContents(s, key);
    var r := SortBy(s, key);
    forall i | 0 <= i < |r| ensures r[i] in s {
      assert r[i] in Elements(r);
    }
    forall i | 0 <= i < |s| ensures s[i] in r {
      assert s[i] in Elements(s);
    }
  }

  lemma {:induction false} InsertSorted<T>(x: T, s: seq<T>, key: T -> SortKey)
    requires StrictlySorted(s, key) && forall y | y in s :: key(y) != key(x)
    ensures StrictlySorted(Insert(x, s, key), key)
    ensures forall y :: y in Insert(x, s, key) ==> y == x || y in s
  {
    if s != [] {
      var t, y := s[..|s| - 1], s[|s| - 1];
      KeyOrder(key(x), key(y));
      if KeyLess(key(x), key(y)) {
        InsertSorted(x, t, key);
        var r := Insert(x, t, key);
        forall i | 0 <= i < |r| ensures KeyLess(key(r[i]), key(y)) {
          assert r[i] in r;
        }
      } else {
        forall i | 0 <= i < |s| ensures KeyLess(key(s[i]), key(x)) {
          if i < |t| {
            KeyTransitive(key(s[i]), key(y), key(x));
          }
        }
      }
    }
  }

  lemma {:induction false} SortSorts<T(!new)>(s: seq<T>, key: T -> SortKey)
    requires DistinctKeys(s, key)
    ensures StrictlySorted(SortBy(s, key), key)
  {
    if s != [] {
      var t, x := s[..|s| - 1], s[|s| - 1];
      SortSorts(t, key);
      SortContents(t, key);
      forall y | y in SortBy(t, key) ensures key(y) != key(x) {
        assert y in Elements(SortBy(t, key));
        assert y in t;
      }
      InsertSorted(x, SortBy(t, key), key);
    }
  }

  /** A strictly sorted sequence is determined by its elements. */
  lemma {:induction false} SortedUnique<T(!new)>(a: seq<T>, b: seq<T>, key: T -> SortKey)
    requires StrictlySorted(a, key) && StrictlySorted(b, key) && multiset(a) == multiset(b)
    ensures a == b
  {
    SameElements(a, b);
    if a != [] {
      SortedLast(a, b, key);
      PrefixSorted(a, key);
      PrefixSorted(b, key);
      DropLast(a, b);
      hide StrictlySorted;
      SortedUnique(a[..|a| - 1], b[..|b| - 1], key);
      assert a == a[..|a| - 1] + [a[|a| - 1]];
    }
  }

  lemma PrefixSorted<T>(s: seq<T>, key: T -> SortKey)
    requires s != [] && StrictlySorted(s, key)
    ensures StrictlySorted(s[..|s| - 1], key)
  {
    hide KeyLess;
  }

  lemma DropLast<T(!new)>(a: seq<T>, b: seq<T>)
    requires a != [] && b != [] && multiset(a) == multiset(b) && a[|a| - 1] == b[|b| - 1]
    ensures multiset(a[..|a| - 1]) == multiset(b[..|b| - 1])
  {
    var x := a[|a| - 1];
    assert a == a[..|a| - 1] + [x] && b == b[..|b| - 1] + [x];
    assert multiset(a[..|a| - 1]) == multiset(a) - multiset{x};
    assert multiset(b[..|b| - 1]) == multiset(b) - multiset{x};
  }

  lemma SortedLast<T>(a: seq<T>, b: seq<T>, key: T -> SortKey)
    requires a != [] && b != [] && StrictlySorted(a, key) && StrictlySorted(b, key) && multiset(a) == multiset(b)
    ensures a[|a| - 1] == b[|b| - 1]
  {
    var x, y := a[|a| - 1], b[|b| - 1];
    assert x in multiset(a) && y in multiset(b);
    assert x in b && y in a by {
      assert x in multiset(b) && y in multiset(a);
    }
    KeyOrder(key(x), key(y));
  }

  /** Sorting sequences of the same elements with distinct keys gives the same result. */
  lemma SortDeterministic<T(!new)>(a: seq<T>, b: seq<T>, key: T -> SortKey)
    requires DistinctKeys(a, key) && DistinctKeys(b, key) && multiset(a) == multiset(b)
    ensures SortBy(a, key) == SortBy(b, key)
  {
    SortContents(a, key);
    SortContents(b, key);
    SortSorts(a, key);
    SortSorts(b, key);
    SortedUnique(SortBy(a, key), SortBy(b, key), key);
  }

  lemma SortOfSorted<T(!new)>(s: seq<T>, key: T -> SortKey)
    requires StrictlySorted(s, key)
    ensures SortBy(s, key) == s
  {
    forall i, j | 0 <= i < j < |s| ensures key(s[i]) != key(s[j]) {
      KeyOrder(key(s[i]), key(s[j]));
    }
    SortContents(s, key);
    SortSorts(s, key);
    SortedUnique(SortBy(s, key), s, key);
  }
}
