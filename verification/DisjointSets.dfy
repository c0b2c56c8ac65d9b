/** The disjoint-set forest of include/dsu.h, which src/graph.cpp repeats inline
    (`get_parent`, and the linking step of `supernodes_to_merge`). */
module DisjointSets {
  import opened Words
  import opened Connectivity

  /** `parent` is a forest whose roots are named by `root`; `depth` decreases
      towards the root, so walking up ends. It is not the true depth: path
      compression leaves it as it is. */
  ghost predicate Forest(parent: seq<nat>, root: seq<nat>, depth: seq<nat>) {
    && |parent| == |root| == |depth|
    && forall v | 0 <= v < |parent| :: ForestAt(parent, root, depth, v)
  }

  ghost predicate ForestAt(parent: seq<nat>, root: seq<nat>, depth: seq<nat>, v: nat)
    requires |parent| == |root| == |depth| && v < |parent|
  {
    && parent[v] < |parent|
    && root[v] < |parent|
    && root[parent[v]] == root[v]
    && parent[root[v]] == root[v]
    && root[root[v]] == root[v]
    && (parent[v] == v ==> root[v] == v)
    && (parent[v] == v <==> depth[v] == 0)
    && (parent[v] != v ==> depth[parent[v]] < depth[v])
  }

  /** Compressing a path: pointing a node at its root keeps the forest and its classes. */
  lemma CompressForest(parent: seq<nat>, root: seq<nat>, depth: seq<nat>, i: nat)
    requires Forest(parent, root, depth) && i < |parent|
    ensures Forest(parent[i := root[i]], root, depth)
  {
    assert ForestAt(parent, root, depth, i);
    assert ForestAt(parent, root, depth, root[i]);
    var p := parent[i := root[i]];
    forall v | 0 <= v < |p|
      ensures ForestAt(p, root, depth, v)
    {
      assert ForestAt(parent, root, depth, v);
    }
  }

  /** Hanging root `b` under another root `a`. */
  lemma LinkForest(parent: seq<nat>, root: seq<nat>, depth: seq<nat>, a: nat, b: nat)
    requires Forest(parent, root, depth) && a < |parent| && b < |parent|
    requires root[a] == a && root[b] == b && a != b
    ensures Forest(parent[b := a], Joined(root, a, b), Deepened(root, depth, b))
  {
    assert ForestAt(parent, root, depth, a) && ForestAt(parent, root, depth, b);
    var p, r, d := parent[b := a], Joined(root, a, b), Deepened(root, depth, b);
    forall v | 0 <= v < |p|
      ensures ForestAt(p, r, d, v)
    {
      assert ForestAt(parent, root, depth, v);
    }
  }

  ghost function Deepened(root: seq<nat>, depth: seq<nat>, b: nat): (d: seq<nat>)
    requires |root| == |depth|
    ensures |d| == |depth|
  {
    seq(|depth|, v requires 0 <= v < |depth| => if root[v] == b then depth[v] + 1 else depth[v])
  }

  lemma RootIsOwn(parent: seq<nat>, root: seq<nat>, depth: seq<nat>, r: nat)
    requires Forest(parent, root, depth) && r < |parent| && root[r] == r
    ensures parent[r] == r
  {
    assert ForestAt(parent, root, depth, r);
  }

  /** The parent array alone fixes the classes: `root` is what walking up finds. */
  lemma {:induction false} RootUnique(parent: seq<nat>, root: seq<nat>, depth: seq<nat>, root': seq<nat>,
                                      depth': seq<nat>, v: nat)
    requires Forest(parent, root, depth) && Forest(parent, root', depth') && v < |parent|
    ensures root[v] == root'[v]
    decreases depth[v]
  {
    assert ForestAt(parent, root, depth, v) && ForestAt(parent, root', depth', v);
    if parent[v] != v {
      RootUnique(parent, root, depth, root', depth', parent[v]);
    }
  }

  /** Joining the classes of roots `a` and `b` under `a`. */
  ghost function Joined(root: seq<nat>, a: nat, b: nat): (r: seq<nat>)
    ensures |r| == |root|
  {
    seq(|root|, v requires 0 <= v < |root| => if root[v] == b then a else root[v])
  }

  lemma JoinedClass(root: seq<nat>, a: nat, b: nat)
    requires Labelling(root) && a < |root| && b < |root| && root[a] == a && root[b] == b
    ensures Labelling(Joined(root, a, b)) && Coarsens(root, Joined(root, a, b))
    ensures Class(Joined(root, a, b), a) == Class(root, a) + Class(root, b)
    ensures forall r | r != a && r != b :: Class(Joined(root, a, b), r) == Class(root, r)
  {
  }

  /** Joining along an edge keeps every class connected. */
  lemma JoinedSound(g: set<Edge>, root: seq<nat>, a: nat, b: nat, x: nat, y: nat)
    requires Labelling(root) && Sound(g, root)
    requires x < |root| && y < |root| && Adjacent(g, x, y)
    requires (root[x] == a && root[y] == b) || (root[x] == b && root[y] == a)
    ensures Sound(g, Joined(root, a, b))
  {
    var (s, t) := if root[x] == b then (x, y) else (y, x);
    forall v | 0 <= v < |root|
      ensures Connected(g, v, Joined(root, a, b)[v])
    {
      if root[v] == b {
        SoundSameClass(g, root, v, s);
        ConnectedEdge(g, s, t);
        ConnectedTrans(g, v, s, t);
        ConnectedTrans(g, v, t, a);
      }
    }
  }

  /** The larger root absorbs; on a tie the first one does. */
  function LinkOrder(size: seq<u32>, i: nat, j: nat): (r: (nat, nat))
    requires i < |size| && j < |size|
    ensures r in {(i, j), (j, i)} && size[r.0] >= size[r.1]
    ensures size[i] == size[j] ==> r == (i, j)
  {
    if size[i] < size[j] then (j, i) else (i, j)
  }

  /** The absorbing root's size grows, modulo 2^32. */
  function Grown(size: seq<u32>, into: nat, from: nat): (r: seq<u32>)
    requires into < |size| && from < |size|
    ensures |r| == |size|
  {
    size[into := (size[into] + size[from]) % LIMIT32]
  }

  // -------------------------------------------------------------- what union by size is for

  /** How many parent steps lead from `v` to its root. */
  ghost function Steps(parent: seq<nat>, root: seq<nat>, depth: seq<nat>, v: nat): nat
    requires Forest(parent, root, depth) && v < |parent|
    decreases depth[v]
  {
    assert ForestAt(parent, root, depth, v);
    if parent[v] == v then 0 else 1 + Steps(parent, root, depth, parent[v])
  }

  /** Node `v` is on the way from `i` to its root. */
  ghost predicate OnPath(parent: seq<nat>, root: seq<nat>, depth: seq<nat>, i: nat, v: nat)
    requires Forest(parent, root, depth) && i < |parent|
    decreases depth[i]
  {
    assert ForestAt(parent, root, depth, i);
    v == i || (parent[i] != i && OnPath(parent, root, depth, parent[i], v))
  }

  /** Every root's size is the number of nodes in its class. */
  ghost predicate SizesAreClasses(root: seq<nat>, size: seq<u32>) {
    |size| == |root| && forall r | 0 <= r < |root| && root[r] == r :: size[r] == |Class(root, r)|
  }

  /** A node `k` steps below its root lies in a class of at least 2^k nodes. */
  ghost predicate LowForest(parent: seq<nat>, root: seq<nat>, depth: seq<nat>)
    requires Forest(parent, root, depth)
  {
    forall v | 0 <= v < |parent| :: Pow2(Steps(parent, root, depth, v)) <= |Class(root, root[v])|
  }

  lemma {:induction false} LinkSteps(parent: seq<nat>, root: seq<nat>, depth: seq<nat>, a: nat, b: nat, v: nat)
    requires Forest(parent, root, depth) && a < |parent| && b < |parent| && v < |parent|
    requires root[a] == a && root[b] == b && a != b
    requires Forest(parent[b := a], Joined(root, a, b), Deepened(root, depth, b))
    ensures Steps(parent[b := a], Joined(root, a, b), Deepened(root, depth, b), v) ==
      Steps(parent, root, depth, v) + if root[v] == b then 1 else 0
    decreases depth[v]
  {
    assert ForestAt(parent, root, depth, v) && ForestAt(parent, root, depth, a) && ForestAt(parent, root, depth, b);
    assert ForestAt(parent[b := a], Joined(root, a, b), Deepened(root, depth, b), v);
    if v == b {
      assert Steps(parent[b := a], Joined(root, a, b), Deepened(root, depth, b), a) == 0;
    } else if parent[v] != v {
      LinkSteps(parent, root, depth, a, b, parent[v]);
    }
  }

  lemma {:induction false} CompressSteps(parent: seq<nat>, root: seq<nat>, depth: seq<nat>, i: nat, v: nat)
    requires Forest(parent, root, depth) && i < |parent| && v < |parent| && Forest(parent[i := root[i]], root, depth)
    ensures Steps(parent[i := root[i]], root, depth, v) <= Steps(parent, root, depth, v)
    decreases depth[v]
  {
    assert ForestAt(parent, root, depth, v) && ForestAt(parent[i := root[i]], root, depth, v);
    if v == i {
      assert ForestAt(parent[i := root[i]], root, depth, root[i]);
      if parent[v] != v {
        assert Steps(parent[i := root[i]], root, depth, root[i]) == 0;
      }
    } else if parent[v] != v {
      CompressSteps(parent, root, depth, i, parent[v]);
    }
  }

  lemma {:induction false} ClassBound(root: seq<nat>, r: nat, n: nat)
    requires n <= |root|
    ensures |Class(root[..n], r)| <= n
  {
    if n > 0 {
      ClassBound(root, r, n - 1);
      var before, now := Class(root[..n - 1], r), Class(root[..n], r);
      assert now == before + if root[n - 1] == r then {n - 1} else {};
    }
  }

  /** Two classes have no node in common, so together at most all nodes. */
  lemma TwoClasses(root: seq<nat>, a: nat, b: nat)
    requires a != b
    ensures |Class(root, a) + Class(root, b)| == |Class(root, a)| + |Class(root, b)| <= |root|
  {
    assert Class(root, a) !! Class(root, b);
    var merged := Joined(root, a, b);
    assert merged[..|merged|] == merged;
    ClassBound(merged, a, |merged|);
    if Class(root, b) == {} {
      assert root[..|root|] == root;
      ClassBound(root, a, |root|);
    }
    assert Class(merged, a) == Class(root, a) + Class(root, b);
  }

  /** Linking keeps sizes right. */
  lemma LinkSizes(root: seq<nat>, size: seq<u32>, a: nat, b: nat)
    requires Labelling(root) && SizesAreClasses(root, size) && a < |root| && b < |root|
    requires root[a] == a && root[b] == b && a != b && size[a] + size[b] < LIMIT32
    ensures SizesAreClasses(Joined(root, a, b), Grown(size, a, b))
  {
    JoinedClass(root, a, b);
    TwoClasses(root, a, b);
  }

  /** Linking the smaller under the larger keeps the forest low. */
  lemma LinkLow(parent: seq<nat>, root: seq<nat>, depth: seq<nat>, a: nat, b: nat)
    requires Forest(parent, root, depth) && Labelling(root) && LowForest(parent, root, depth)
    requires a < |parent| && b < |parent| && root[a] == a && root[b] == b && a != b
    requires |Class(root, b)| <= |Class(root, a)|
    requires Forest(parent[b := a], Joined(root, a, b), Deepened(root, depth, b))
    ensures LowForest(parent[b := a], Joined(root, a, b), Deepened(root, depth, b))
  {
    hide ForestAt, Steps;
    JoinedClass(root, a, b);
    TwoClasses(root, a, b);
    forall v | 0 <= v < |parent|
      ensures Pow2(Steps(parent[b := a], Joined(root, a, b), Deepened(root, depth, b), v)) <=
        |Class(Joined(root, a, b), Joined(root, a, b)[v])|
    {
      LinkSteps(parent, root, depth, a, b, v);
      assert Pow2(Steps(parent, root, depth, v)) <= |Class(root, root[v])|;
    }
  }

  lemma CompressLow(parent: seq<nat>, root: seq<nat>, depth: seq<nat>, i: nat)
    requires Forest(parent, root, depth) && LowForest(parent, root, depth) && i < |parent|
    requires Forest(parent[i := root[i]], root, depth)
    ensures LowForest(parent[i := root[i]], root, depth)
  {
    hide ForestAt, Steps;
    forall v | 0 <= v < |parent|
      ensures Pow2(Steps(parent[i := root[i]], root, depth, v)) <= |Class(root, root[v])|
    {
      CompressSteps(parent, root, depth, i, v);
      PowMono(Steps(parent[i := root[i]], root, depth, v), Steps(parent, root, depth, v));
      assert Pow2(Steps(parent, root, depth, v)) <= |Class(root, root[v])|;
    }
  }

  /** What hanging one root under another does to the forest. */
  lemma LinkOutcome(parent: seq<nat>, size: seq<u32>, root: seq<nat>, depth: seq<nat>, into: nat, from: nat)
      returns (deeper: seq<nat>)
    requires Forest(parent, root, depth) && Labelling(root) && |size| == |parent| == |root|
    requires into < |parent| && from < |parent| && root[into] == into && root[from] == from && size[into] >= size[from]
    ensures Forest(parent[from := into], Joined(root, into, from), deeper) && Labelling(Joined(root, into, from))
    ensures into != from && SizesAreClasses(root, size) && LowForest(parent, root, depth) &&
            size[into] + size[from] < LIMIT32 ==>
      && SizesAreClasses(Joined(root, into, from), Grown(size, into, from))
      && LowForest(parent[from := into], Joined(root, into, from), deeper)
  {
    hide ForestAt, Steps, Grown, LowForest;
    deeper := depth;
    JoinedClass(root, into, from);
    if into == from {
      RootIsOwn(parent, root, depth, into);
      assert parent[from := into] == parent && Joined(root, into, from) == root;
    } else {
      deeper := Deepened(root, depth, from);
      LinkForest(parent, root, depth, into, from);
      if SizesAreClasses(root, size) && LowForest(parent, root, depth) && size[into] + size[from] < LIMIT32 {
        LinkSizes(root, size, into, from);
        LinkLow(parent, root, depth, into, from);
      }
    }
  }

  lemma {:induction false} PowMono(a: nat, b: nat)
    requires a <= b
    ensures Pow2(a) <= Pow2(b)
  {
    if a < b {
      PowMono(a, b - 1);
    }
  }

  lemma AloneBalanced(root: seq<nat>)
    requires forall v | 0 <= v < |root| :: root[v] == v
    ensures forall r | 0 <= r < |root| :: |Class(root, r)| == 1
  {
    forall r | 0 <= r < |root|
      ensures |Class(root, r)| == 1
    {
      assert Class(root, r) == {r};
    }
  }

  class DisjointSetUnion {
    var parent: seq<nat>
    var size: seq<u32>
    ghost var root: seq<nat>
    ghost var depth: seq<nat>

    ghost predicate Valid()
      reads this
    {
      Forest(parent, root, depth) && Labelling(root) && |size| == |parent| == |root|
    }

    /** Every node alone, with size 1. */
    ghost predicate Discrete(n: nat)
      reads this
    {
      && Valid() && |parent| == n
      && forall v | 0 <= v < n :: parent[v] == v && root[v] == v && size[v] == 1
    }

    /** Every node alone; sizes may be anything. */
    ghost predicate Alone(n: nat)
      reads this
    {
      Valid() && |parent| == n && forall v | 0 <= v < n :: parent[v] == v && root[v] == v
    }

    /** Sizes are those of the classes, and no node is more than log2 of the size of its
        class below its root. */
    ghost predicate Balanced()
      reads this
    {
      Valid() && SizesAreClasses(root, size) && LowForest(parent, root, depth)
    }

    /** A forest of single nodes is balanced. */
    lemma DiscreteBalanced(n: nat)
      requires Discrete(n)
      ensures Balanced()
    {
      AloneBalanced(root);
    }

    /** Sets all sizes to 1, leaving the forest as it is. */
    method FillSizes()
      requires Valid()
      modifies this`size
      ensures Valid() && forall v | 0 <= v < |parent| :: size[v] == 1
    {
      size := seq(|size|, _ => 1);
    }

    constructor (n: nat)
      ensures Discrete(n)
    {
      size := seq(n, _ => 1);
      parent := seq(n, v => v);
      root, depth := seq(n, v => v), seq(n, _ => 0);
    }

    method Reset(n: nat)
      modifies this
      ensures Discrete(n)
    {
      size := seq(n, _ => 1);
      parent := seq(n, v => v);
      root, depth := seq(n, v => v), seq(n, _ => 0);
    }

    /** The smaller root is hung under the larger, the second under the first on a tie.
        Sizes are added modulo 2^32; linking a root to itself only doubles its size. */
    method Link(i: nat, j: nat) returns (into: nat, from: nat)
      requires Valid() && i < |parent| && j < |parent| && root[i] == i && root[j] == j
      modifies this
      ensures Valid() && |parent| == old(|parent|)
      ensures {into, from} == {i, j} && old(size)[into] >= old(size)[from]
      ensures old(size)[i] == old(size)[j] ==> into == i
      ensures (into, from) == LinkOrder(old(size), i, j)
      ensures parent == old(parent)[from := into]
      ensures root == Joined(old(root), into, from)
      ensures size == Grown(old(size), into, from)
      ensures size == old(size)[into := (old(size)[into] + old(size)[from]) % LIMIT32]
      ensures old(Balanced()) && i != j && old(size)[i] + old(size)[j] < LIMIT32 ==> Balanced()
    {
      hide Forest, LowForest, Labelling, SizesAreClasses, Joined;
      into, from := i, j;
      if size[i] < size[j] {
        into, from := j, i;
      }
      ghost var deeper := LinkOutcome(parent, size, root, depth, into, from);
      parent := parent[from := into];
      size := Grown(size, into, from);
      root, depth := Joined(root, into, from), deeper;
    }

    /** Path compression hangs every node on the way directly under the root, touches no
        other, and changes no class. */
    method FindSet(i: nat) returns (r: nat)
      requires Valid() && i < |parent|
      modifies this`parent
      ensures Valid() && |parent| == old(|parent|)
      ensures r == root[i]
      ensures forall v | 0 <= v < |parent| ::
        parent[v] == if OnPath(old(parent), root, depth, i, v) then root[v] else old(parent)[v]
      ensures old(Balanced()) ==> Balanced()
      decreases depth[i]
    {
      assert ForestAt(parent, root, depth, i);
      if parent[i] == i {
        return i;
      }
      r := FindSet(parent[i]);
      CompressForest(parent, root, depth, i);
      if LowForest(parent, root, depth) {
        CompressLow(parent, root, depth, i);
      }
      parent := parent[i := r];
    }

    method UnionSet(i: nat, j: nat)
      requires Valid() && i < |parent| && j < |parent|
      modifies this
      ensures Valid() && |parent| == old(|parent|)
      ensures var (into, from) := LinkOrder(old(size), old(root[i]), old(root[j]));
        root == Joined(old(root), into, from) && size == Grown(old(size), into, from)
      ensures var a, b := old(root[i]), old(root[j]);
        old(Balanced()) && a != b && old(size)[a] + old(size)[b] < LIMIT32 ==> Balanced()
    {
      hide ForestAt, LowForest, Steps, OnPath;
      var a := FindSet(i);
      var b := FindSet(j);
      var into, from := Link(a, b);
    }

    /** The sets of nodes with the same root, in ascending order of root: the
        closing loop of both `kruskal` and `boruvka_emulation`. */
    method Sets() returns (sets: seq<set<nat>>)
      requires Valid()
      modifies this`parent
      ensures Valid() && |parent| == old(|parent|)
      ensures sets == ClassList(root) && exists rs :: ListedBy(root, rs, sets)
    {
      var n := |parent|;
      var temp: map<nat, set<nat>> := map[];
      for i := 0 to n
        invariant Valid() && |parent| == n
        invariant Grouped(root[..i], temp)
      {
        var r := FindSet(i);
        GroupedStep(root[..i], temp, r);
        assert root[..i + 1] == root[..i] + [r];
        temp := temp[r := (if r in temp then temp[r] else {}) + {i}];
      }
      assert root[..n] == root;
      hide Forest;
      sets := [];
      for r := 0 to n
        invariant Valid() && |root| == n && sets == ClassesBelow(root, r)
      {
        GroupedKeys(root, temp, r);
        if r in temp {
          sets := sets + [temp[r]];
        }
      }
      ghost var rs := ClassListOrder(root);
    }
  }

  /** `temp` maps every name in use to the nodes that carry it. */
  ghost predicate Grouped(names: seq<nat>, temp: map<nat, set<nat>>) {
    && (forall v | 0 <= v < |names| :: names[v] in temp)
    && (forall r | r in temp :: temp[r] != {} && temp[r] == Class(names, r))
  }

  lemma GroupedStep(names: seq<nat>, temp: map<nat, set<nat>>, r: nat)
    requires Grouped(names, temp)
    ensures Grouped(names + [r], temp[r := (if r in temp then temp[r] else {}) + {|names|}])
  {
    var names', temp' := names + [r], temp[r := (if r in temp then temp[r] else {}) + {|names|}];
    forall q | q in temp'
      ensures temp'[q] == Class(names', q)
    {
      assert Class(names', q) == Class(names, q) + (if q == r then {|names|} else {});
      if q !in temp {
        assert Class(names, q) == {};
      }
    }
  }

  /** The names in use are the roots. */
  lemma GroupedKeys(root: seq<nat>, temp: map<nat, set<nat>>, r: nat)
    requires Labelling(root) && Grouped(root, temp) && r < |root|
    ensures r in temp <==> root[r] == r
    ensures r in temp ==> temp[r] == Class(root, r)
  {
    if r in temp {
      var v :| v in temp[r];
      assert root[v] == r;
    }
  }

  /** The classes of the roots below `upTo`, ascending. */
  ghost function ClassesBelow(root: seq<nat>, upTo: nat): seq<set<nat>>
    requires upTo <= |root|
  {
    if upTo == 0 then [] else
      ClassesBelow(root, upTo - 1) + if root[upTo - 1] == upTo - 1 then [Class(root, upTo - 1)] else []
  }

  /** All classes, in ascending order of root. */
  ghost function ClassList(root: seq<nat>): seq<set<nat>> {
    ClassesBelow(root, |root|)
  }

  /** The list goes through all roots in ascending order: `rs` are the roots, strictly
      increasing and none missing, and the k-th set is the class of the k-th. */
  ghost predicate ListedBy(root: seq<nat>, rs: seq<nat>, sets: seq<set<nat>>) {
    && |rs| == |sets|
    && (forall k | 0 <= k < |rs| :: rs[k] < |root| && root[rs[k]] == rs[k] && sets[k] == Class(root, rs[k]))
    && (forall j, k | 0 <= j < k < |rs| :: rs[j] < rs[k])
    && forall r | 0 <= r < |root| && root[r] == r :: r in rs
  }

  lemma {:induction false} BelowOrder(root: seq<nat>, upTo: nat) returns (rs: seq<nat>)
    requires upTo <= |root|
    ensures var sets := ClassesBelow(root, upTo);
      && |rs| == |sets|
      && (forall k | 0 <= k < |rs| :: rs[k] < upTo && root[rs[k]] == rs[k] && sets[k] == Class(root, rs[k]))
      && (forall j, k | 0 <= j < k < |rs| :: rs[j] < rs[k])
      && forall r | 0 <= r < upTo && root[r] == r :: r in rs
  {
    rs := [];
    if upTo > 0 {
      rs := BelowOrder(root, upTo - 1);
      if root[upTo - 1] == upTo - 1 {
        rs := rs + [upTo - 1];
      }
    }
  }

  lemma ClassListOrder(root: seq<nat>) returns (rs: seq<nat>)
    ensures ListedBy(root, rs, ClassList(root))
  {
    rs := BelowOrder(root, |root|);
  }

  /** There is only one such list. */
  lemma ListedOnce(root: seq<nat>, rs: seq<nat>, sets: seq<set<nat>>, rs': seq<nat>, sets': seq<set<nat>>)
    requires ListedBy(root, rs, sets) && ListedBy(root, rs', sets')
    ensures rs == rs' && sets == sets'
  {
    SameIncreasing(rs, rs');
  }

  ghost predicate Increasing(xs: seq<nat>) {
    forall j, k | 0 <= j < k < |xs| :: xs[j] < xs[k]
  }

  lemma {:induction false} SameIncreasing(xs: seq<nat>, ys: seq<nat>)
    requires Increasing(xs) && Increasing(ys) && forall x :: x in xs <==> x in ys
    ensures xs == ys
    decreases |xs|
  {
    if xs == [] && ys != [] {
      SameLast(ys, xs);
    } else if xs != [] {
      var a, b := |xs| - 1, |ys| - 1;
      SameLast(xs, ys);
      WithoutLast(xs);
      WithoutLast(ys);
      forall x
        ensures x in xs[..a] <==> x in ys[..b]
      {
        assert x in xs <==> x in ys;
      }
      SameIncreasing(xs[..a], ys[..b]);
      assert xs == xs[..a] + [xs[a]] && ys == ys[..b] + [ys[b]];
    }
  }

  lemma SameLast(xs: seq<nat>, ys: seq<nat>)
    requires Increasing(xs) && Increasing(ys) && xs != [] && forall x :: x in xs <==> x in ys
    ensures ys != [] && xs[|xs| - 1] == ys[|ys| - 1]
  {
    assert xs[|xs| - 1] in xs;
    var j :| 0 <= j < |ys| && ys[j] == xs[|xs| - 1];
    assert ys[|ys| - 1] in ys;
    var i :| 0 <= i < |xs| && xs[i] == ys[|ys| - 1];
  }

  lemma WithoutLast(xs: seq<nat>)
    requires Increasing(xs) && xs != []
    ensures Increasing(xs[..|xs| - 1])
    ensures forall x :: x in xs[..|xs| - 1] <==> x in xs && x != xs[|xs| - 1]
  {
    var a := |xs| - 1;
    assert xs == xs[..a] + [xs[a]];
    forall x | x in xs[..a]
      ensures x != xs[a]
    {
      var k :| 0 <= k < a && xs[k] == x;
    }
  }

  lemma {:induction false} ClassesBelowMembers(root: seq<nat>, upTo: nat)
    requires upTo <= |root| && Labelling(root)
    ensures forall s :: s in ClassesBelow(root, upTo) <==>
      exists r | 0 <= r < upTo :: root[r] == r && s == Class(root, r)
    ensures forall j, k | 0 <= j < k < |ClassesBelow(root, upTo)| ::
      ClassesBelow(root, upTo)[j] != ClassesBelow(root, upTo)[k]
  {
    if upTo > 0 {
      var a := upTo - 1;
      ClassesBelowMembers(root, a);
      var before := ClassesBelow(root, a);
      if root[a] == a {
        assert a in Class(root, a);
        forall k | 0 <= k < |before|
          ensures before[k] != Class(root, a)
        {
          assert before[k] in before;
        }
      }
    }
  }

  /** Every class is listed, once. */
  lemma ClassListLists(root: seq<nat>)
    requires Labelling(root)
    ensures ListsClasses(root, ClassList(root))
  {
    var sets := ClassList(root);
    ClassesBelowMembers(root, |root|);
    forall k | 0 <= k < |sets|
      ensures IsClass(root, sets[k])
    {
      assert sets[k] in sets;
      var r :| 0 <= r < |root| && root[r] == r && sets[k] == Class(root, r);
    }
    forall v | 0 <= v < |root|
      ensures Class(root, root[v]) in sets
    {
      assert root[root[v]] == root[v];
    }
  }
}
