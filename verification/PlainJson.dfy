/** The boundary walk over a graph of Python containers (pmqa/run/models.py): a shared
    counter, a set of containers on the current path, early exit. It agrees with the plain
    question whether the value unfolds to a finite, small, shallow, legal tree. */
module PlainJson {
  const MAX_DEPTH: nat := 32
  const MAX_ITEMS: nat := 4096
  const MAX_TEXT: nat := 65536

  /** A Python value; containers are known by identity and may be shared or cyclic. */
  datatype Value =
    | Null
    | Bool
    | Int
    | Float(finite: bool)
    | Text(length: nat)
    | Container(id: nat)
    | RuntimeObject

  /** A list item, or a dictionary value with whether its key is an accepted text. */
  datatype Child = Child(plainKey: bool, value: Value)

  type Heap = map<nat, seq<Child>>

  function Children(h: Heap, id: nat): seq<Child> {
    if id in h then h[id] else []
  }

  predicate LegalScalar(v: Value) {
    match v
    case Float(finite) => finite
    case Text(length) => length <= MAX_TEXT
    case Container(_) => false
    case RuntimeObject => false
    case _ => true
  }

  // ----- the walk -----

  /** Verdict and counter after visiting a value. */
  function Walk(h: Heap, v: Value, depth: nat, count: nat, active: set<nat>): (bool, nat)
    decreases MAX_DEPTH + 2 - depth, 0, 0
  {
    if depth > MAX_DEPTH then (false, count)
    else if count + 1 > MAX_ITEMS then (false, count + 1)
    else if !v.Container? then (LegalScalar(v), count + 1)
    else if v.id in active then (false, count + 1)
    else WalkAll(h, Children(h, v.id), depth + 1, count + 1, active + {v.id})
  }

  function WalkAll(h: Heap, cs: seq<Child>, depth: nat, count: nat, active: set<nat>): (bool, nat)
    decreases MAX_DEPTH + 2 - depth, 1, |cs|
  {
    if cs == [] then (true, count)
    else if !cs[0].plainKey then (false, count)
    else
      var (ok, c) := Walk(h, cs[0].value, depth, count, active);
      if ok then WalkAll(h, cs[1..], depth, c, active) else (false, c)
  }

  predicate Accepts(h: Heap, v: Value) {
    Walk(h, v, 0, 0, {}).0
  }

  /** The walk as the program does it: one counter and one set, updated in place. */
  class Walker {
    const heap: Heap
    var count: nat
    var active: set<nat>

    constructor (heap: Heap)
      ensures this.heap == heap && count == 0 && active == {}
    {
      this.heap := heap;
      count, active := 0, {};
    }

    method IsPlain(v: Value, depth: nat) returns (ok: bool)
      modifies this
      ensures (ok, count) == Walk(heap, v, depth, old(count), old(active)) && active == old(active)
      decreases MAX_DEPTH + 2 - depth
    {
      if depth > MAX_DEPTH {
        return false;
      }
      count := count + 1;
      if count > MAX_ITEMS {
        return false;
      }
      if !v.Container? {
        return LegalScalar(v);
      }
      if v.id in active {
        return false;
      }
      active := active + {v.id};
      var cs := Children(heap, v.id);
      ok := true;
      ghost var start := count;
      for i := 0 to |cs|
        invariant ok && active == old(active) + {v.id}
        invariant WalkAll(heap, cs, depth + 1, start, active) == WalkAll(heap, cs[i..], depth + 1, count, active)
      {
        if cs[i].plainKey {
          ok := IsPlain(cs[i].value, depth + 1);
        } else {
          ok := false;
        }
        if !ok {
          active := active - {v.id};
          return;
        }
        assert cs[i..][1..] == cs[i + 1..];
      }
      active := active - {v.id};
    }
  }

  // ----- what the walk decides -----

  /** The unfolding of a value: every path of the graph as a separate branch. */
  datatype Tree = Leaf(legal: bool) | Node(plainKeys: bool, children: seq<Tree>)

  predicate Unfolds(h: Heap, v: Value, t: Tree)
    decreases t
  {
    match t
    case Leaf(legal) => !v.Container? && legal == LegalScalar(v)
    case Node(keys, ts) =>
      && v.Container?
      && var cs := Children(h, v.id);
         && |ts| == |cs|
         && (keys <==> forall i :: 0 <= i < |cs| ==> cs[i].plainKey)
         && forall i :: 0 <= i < |ts| ==> Unfolds(h, cs[i].value, ts[i])
  }

  predicate Legal(t: Tree) {
    match t
    case Leaf(legal) => legal
    case Node(keys, ts) => keys && forall i :: 0 <= i < |ts| ==> Legal(ts[i])
  }

  function Size(t: Tree): (n: nat)
    ensures n >= 1
    decreases t, 0
  {
    match t
    case Leaf(_) => 1
    case Node(_, ts) => 1 + SizeAll(ts)
  }

  function SizeAll(ts: seq<Tree>): (n: nat)
    ensures forall i :: 0 <= i < |ts| ==> Size(ts[i]) <= n
    decreases ts, 1
  {
    if ts == [] then 0 else
      var rest := SizeAll(ts[1..]);
      assert forall i :: 1 <= i < |ts| ==> ts[i] == ts[1..][i - 1];
      Size(ts[0]) + rest
  }

  /** Every node lies at most this many levels below the root. */
  predicate Within(t: Tree, levels: nat) {
    t.Leaf? || (|t.children| == 0 || (levels > 0 && forall i :: 0 <= i < |t.children| ==>
                                      Within(t.children[i], levels - 1)))
  }

  predicate Admissible(t: Tree) {
    Legal(t) && Within(t, MAX_DEPTH) && Size(t) <= MAX_ITEMS
  }

  /** A value has at most one unfolding. */
  lemma {:induction false} UnfoldsUnique(h: Heap, v: Value, s: Tree, t: Tree)
    requires Unfolds(h, v, s) && Unfolds(h, v, t)
    ensures s == t
    decreases s
  {
    if s.Node? {
      forall i | 0 <= i < |s.children| ensures s.children[i] == t.children[i] {
        UnfoldsUnique(h, Children(h, v.id)[i].value, s.children[i], t.children[i]);
      }
      assert s.children == t.children;
    }
  }

  /** An accepting walk has visited a legal unfolding within the bounds, node by node. */
  lemma {:induction false} WalkSound(h: Heap, v: Value, depth: nat, count: nat, active: set<nat>) returns (t: Tree)
    requires Walk(h, v, depth, count, active).0
    ensures Unfolds(h, v, t) && Legal(t) && depth <= MAX_DEPTH && Within(t, MAX_DEPTH - depth)
    ensures Walk(h, v, depth, count, active).1 == count + Size(t) <= MAX_ITEMS
    decreases MAX_DEPTH + 2 - depth, 0, 0
  {
    if v.Container? {
      var cs := Children(h, v.id);
      var ts := WalkAllSound(h, cs, depth + 1, count + 1, active + {v.id});
      t := Node(true, ts);
    } else {
      t := Leaf(true);
    }
  }

  lemma {:induction false} WalkAllSound(h: Heap, cs: seq<Child>, depth: nat, count: nat, active: set<nat>)
      returns (ts: seq<Tree>)
    requires WalkAll(h, cs, depth, count, active).0 && depth > 0 && count <= MAX_ITEMS
    ensures |ts| == |cs| && forall i :: 0 <= i < |cs| ==>
            cs[i].plainKey && Unfolds(h, cs[i].value, ts[i]) && Legal(ts[i])
    ensures cs != [] ==> depth <= MAX_DEPTH
    ensures forall i :: 0 <= i < |cs| ==> Within(ts[i], MAX_DEPTH - depth)
    ensures WalkAll(h, cs, depth, count, active).1 == count + SizeAll(ts) <= MAX_ITEMS
    decreases MAX_DEPTH + 2 - depth, 1, |cs|
  {
    if cs == [] {
      ts := [];
    } else {
      var t := WalkSound(h, cs[0].value, depth, count, active);
      var rest := WalkAllSound(h, cs[1..], depth, Walk(h, cs[0].value, depth, count, active).1, active);
      ts := [t] + rest;
      assert ts[1..] == rest;
    }
  }

  /** Every container on the path has an unfolding larger than what is left to visit. */
  ghost predicate Enclosing(h: Heap, active: set<nat>, trees: map<nat, Tree>, size: nat) {
    active <= trees.Keys && forall a :: a in active ==> Unfolds(h, Container(a), trees[a]) && size < Size(trees[a])
  }

  /** A legal unfolding within the bounds is accepted: sharing is never taken for a cycle. */
  lemma {:induction false} WalkComplete(h: Heap, v: Value, t: Tree, depth: nat, count: nat, active: set<nat>,
                                        trees: map<nat, Tree>)
    requires Unfolds(h, v, t) && Legal(t) && depth <= MAX_DEPTH && Within(t, MAX_DEPTH - depth)
    requires count + Size(t) <= MAX_ITEMS && Enclosing(h, active, trees, Size(t))
    ensures Walk(h, v, depth, count, active) == (true, count + Size(t))
    decreases t, 2, 0
  {
    if t.Node? {
      if v.id in active {
        UnfoldsUnique(h, v, t, trees[v.id]);
      }
      assert v.id !in active;
      WalkAllComplete(h, Children(h, v.id), t, t.children, depth + 1, count + 1, active + {v.id}, trees[v.id := t]);
    }
  }

  lemma {:induction false} WalkAllComplete(h: Heap, cs: seq<Child>, whole: Tree, ts: seq<Tree>, depth: nat, count: nat,
                                           active: set<nat>, trees: map<nat, Tree>)
    requires |cs| == |ts| && whole.Node? && depth > 0 && (cs != [] ==> depth <= MAX_DEPTH)
    requires forall i :: 0 <= i < |ts| ==> ts[i] in whole.children
    requires forall i :: 0 <= i < |ts| ==>
               cs[i].plainKey && Unfolds(h, cs[i].value, ts[i]) && Legal(ts[i]) && Within(ts[i], MAX_DEPTH - depth)
    requires count + SizeAll(ts) <= MAX_ITEMS && Enclosing(h, active, trees, SizeAll(ts))
    ensures WalkAll(h, cs, depth, count, active) == (true, count + SizeAll(ts))
    decreases whole, 1, |ts|
  {
    if cs != [] {
      assert ts[0] in whole.children;
      WalkComplete(h, cs[0].value, ts[0], depth, count, active, trees);
      WalkAllComplete(h, cs[1..], whole, ts[1..], depth, count + Size(ts[0]), active, trees);
    }
  }

  /** The walk accepts exactly the values with a legal unfolding of at most 4096 nodes and
      depth 32, and its counter is then the number of nodes. */
  lemma AcceptsExactly(h: Heap, v: Value)
    ensures Accepts(h, v) <==> exists t :: Unfolds(h, v, t) && Admissible(t)
    ensures forall t :: Unfolds(h, v, t) && Admissible(t) ==> Walk(h, v, 0, 0, {}).1 == Size(t)
  {
    if Accepts(h, v) {
      var t := WalkSound(h, v, 0, 0, {});
      assert Unfolds(h, v, t) && Admissible(t);
    }
    forall t | Unfolds(h, v, t) && Admissible(t)
      ensures Walk(h, v, 0, 0, {}) == (true, Size(t))
    {
      WalkComplete(h, v, t, 0, 0, {}, map[]);
    }
  }

  /** Whatever the graph, the counter grows only and stops one past the limit. */
  lemma {:induction false} VisitsBounded(h: Heap, v: Value, depth: nat, count: nat, active: set<nat>)
    requires count <= MAX_ITEMS
    ensures count <= Walk(h, v, depth, count, active).1 <= MAX_ITEMS + 1
    ensures Walk(h, v, depth, count, active).0 ==> Walk(h, v, depth, count, active).1 <= MAX_ITEMS
    decreases MAX_DEPTH + 2 - depth, 0, 0
  {
    if depth <= MAX_DEPTH && v.Container? && count < MAX_ITEMS && v.id !in active {
      VisitsAllBounded(h, Children(h, v.id), depth + 1, count + 1, active + {v.id});
    }
  }

  lemma {:induction false} VisitsAllBounded(h: Heap, cs: seq<Child>, depth: nat, count: nat, active: set<nat>)
    requires count <= MAX_ITEMS
    ensures count <= WalkAll(h, cs, depth, count, active).1 <= MAX_ITEMS + 1
    ensures WalkAll(h, cs, depth, count, active).0 ==> WalkAll(h, cs, depth, count, active).1 <= MAX_ITEMS
    decreases MAX_DEPTH + 2 - depth, 1, |cs|
  {
    if cs != [] {
      VisitsBounded(h, cs[0].value, depth, count, active);
      var (ok, c) := Walk(h, cs[0].value, depth, count, active);
      if ok {
        VisitsAllBounded(h, cs[1..], depth, c, active);
      }
    }
  }

  // ----- in the program's own limits -----

  /** The scalars that are accepted: null, truth values, integers, finite floats and texts of at
      most 65536 characters; no other object is. */
  lemma ScalarsExactly(h: Heap, v: Value)
    requires !v.Container?
    ensures Accepts(h, v) <==>
              v == Null || v == Bool || v == Int || v == Float(true) || (v.Text? && v.length <= 65_536)
  {}

  /** Following these positions from v, each in the container reached so far, leads to u. */
  predicate Leads(h: Heap, v: Value, path: seq<nat>, u: Value)
    decreases |path|
  {
    if path == [] then u == v
    else
      v.Container? && path[0] < |Children(h, v.id)| && Leads(h, Children(h, v.id)[path[0]].value, path[1..], u)
  }

  lemma {:induction false} PathInTree(h: Heap, v: Value, t: Tree, levels: nat, path: seq<nat>, u: Value)
    requires Unfolds(h, v, t) && Legal(t) && Within(t, levels) && Leads(h, v, path, u)
    ensures |path| <= levels
    ensures !u.Container? ==> LegalScalar(u)
    ensures u.Container? ==> forall i :: 0 <= i < |Children(h, u.id)| ==> Children(h, u.id)[i].plainKey
    decreases |path|
  {
    if path != [] {
      PathInTree(h, Children(h, v.id)[path[0]].value, t.children[path[0]], levels - 1, path[1..], u);
    }
  }

  /** Wherever one gets to from an accepted value, it is at most 32 containers deep, and there is no
      runtime object, infinite float, longer text or key that is not accepted. */
  lemma AcceptedPaths(h: Heap, v: Value, path: seq<nat>, u: Value)
    requires Accepts(h, v) && Leads(h, v, path, u)
    ensures |path| <= 32
    ensures u != RuntimeObject && u != Float(false) && (u.Text? ==> u.length <= 65_536)
    ensures u.Container? ==> forall i :: 0 <= i < |Children(h, u.id)| ==> Children(h, u.id)[i].plainKey
  {
    AcceptsExactly(h, v);
    var t :| Unfolds(h, v, t) && Admissible(t);
    hide Accepts;
    PathInTree(h, v, t, MAX_DEPTH, path, u);
  }

  /** And every legal unfolding of at most 32 levels and 4096 nodes is accepted. */
  lemma AcceptsWithinLimits(h: Heap, v: Value, t: Tree)
    requires Unfolds(h, v, t) && Legal(t) && Within(t, 32)
    ensures Accepts(h, v) <==> Size(t) <= 4096
  {
    AcceptsExactly(h, v);
    if Accepts(h, v) {
      var s :| Unfolds(h, v, s) && Admissible(s);
      UnfoldsUnique(h, v, s, t);
    }
    hide Accepts;
  }
}
