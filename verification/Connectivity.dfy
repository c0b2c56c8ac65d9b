/** Undirected graphs on nodes 0..n-1, paths, components, and labellings of nodes
    by a root node. */
module Connectivity {

  type Edge = (nat, nat)

  predicate Adjacent(g: set<Edge>, u: nat, v: nat) {
    (u, v) in g || (v, u) in g
  }

  ghost predicate IsPath(g: set<Edge>, path: seq<nat>) {
    && path != []
    && forall i | 0 <= i < |path| - 1 :: Adjacent(g, path[i], path[i + 1])
  }

  ghost predicate PathBetween(g: set<Edge>, path: seq<nat>, u: nat, v: nat) {
    IsPath(g, path) && path[0] == u && path[|path| - 1] == v
  }

  ghost predicate Connected(g: set<Edge>, u: nat, v: nat) {
    exists path :: PathBetween(g, path, u, v)
  }

  ghost function Component(g: set<Edge>, n: nat, v: nat): set<nat> {
    set u | 0 <= u < n && Connected(g, v, u)
  }

  ghost predicate IsComponent(g: set<Edge>, n: nat, s: set<nat>) {
    exists v | 0 <= v < n :: s == Component(g, n, v)
  }

  /** `sets` lists every connected component exactly once. */
  ghost predicate IsComponents(g: set<Edge>, n: nat, sets: seq<set<nat>>) {
    && (forall k | 0 <= k < |sets| :: IsComponent(g, n, sets[k]))
    && (forall v | 0 <= v < n :: Component(g, n, v) in sets)
    && (forall j, k | 0 <= j < k < |sets| :: sets[j] != sets[k])
  }

  lemma ConnectedRefl(g: set<Edge>, u: nat)
    ensures Connected(g, u, u)
  {
    assert PathBetween(g, [u], u, u);
  }

  lemma ConnectedEdge(g: set<Edge>, u: nat, v: nat)
    requires Adjacent(g, u, v)
    ensures Connected(g, u, v)
  {
    assert PathBetween(g, [u, v], u, v);
  }

  lemma ConnectedTrans(g: set<Edge>, u: nat, v: nat, w: nat)
    requires Connected(g, u, v) && Connected(g, v, w)
    ensures Connected(g, u, w)
  {
    var p :| PathBetween(g, p, u, v);
    var q :| PathBetween(g, q, v, w);
    assert PathBetween(g, p + q[1..], u, w);
  }

  lemma ConnectedSym(g: set<Edge>, u: nat, v: nat)
    requires Connected(g, u, v)
    ensures Connected(g, v, u)
  {
    var p :| PathBetween(g, p, u, v);
    var q := seq(|p|, i requires 0 <= i < |p| => p[|p| - 1 - i]);
    forall i | 0 <= i < |q| - 1
      ensures Adjacent(g, q[i], q[i + 1])
    {
      assert Adjacent(g, p[|p| - 2 - i], p[|p| - 2 - i + 1]);
    }
    assert PathBetween(g, q, v, u);
  }

  /** No edge leaves `s`. */
  ghost predicate Closed(g: set<Edge>, s: set<nat>) {
    forall e | e in g :: e.0 in s <==> e.1 in s
  }

  lemma {:induction false} ClosedPath(g: set<Edge>, s: set<nat>, path: seq<nat>)
    requires Closed(g, s) && IsPath(g, path) && path[0] in s
    ensures path[|path| - 1] in s
  {
    if |path| > 1 {
      assert Adjacent(g, path[0], path[1]);
      assert IsPath(g, path[1..]) by {
        forall i | 0 <= i < |path[1..]| - 1
          ensures Adjacent(g, path[1..][i], path[1..][i + 1])
        {
          assert Adjacent(g, path[i + 1], path[i + 1 + 1]);
        }
      }
      ClosedPath(g, s, path[1..]);
    }
  }

  /** A closed set holds everything reachable from its members. */
  lemma ClosedReach(g: set<Edge>, s: set<nat>, u: nat, v: nat)
    requires Closed(g, s) && u in s && Connected(g, u, v)
    ensures v in s
  {
    var p :| PathBetween(g, p, u, v);
    ClosedPath(g, s, p);
  }

  // ---------------------------------------------------------------- labellings

  /** `root[v]` names the class of `v`; the name is a member of the class. */
  ghost predicate Labelling(root: seq<nat>) {
    forall v | 0 <= v < |root| :: root[v] < |root| && root[root[v]] == root[v]
  }

  ghost function Class(root: seq<nat>, r: nat): set<nat> {
    set v | 0 <= v < |root| && root[v] == r
  }

  /** Every node is connected to the name of its class. */
  ghost predicate Sound(g: set<Edge>, root: seq<nat>) {
    forall v | 0 <= v < |root| :: Connected(g, v, root[v])
  }

  /** Classes of `root` are unions of classes of `finer`. */
  ghost predicate Coarsens(finer: seq<nat>, root: seq<nat>) {
    && |finer| == |root|
    && forall u, v | 0 <= u < |root| && 0 <= v < |root| && finer[u] == finer[v] :: root[u] == root[v]
  }

  ghost predicate InRange(g: set<Edge>, n: nat) {
    forall e | e in g :: e.0 < n && e.1 < n
  }

  lemma SoundSameClass(g: set<Edge>, root: seq<nat>, u: nat, v: nat)
    requires Sound(g, root) && u < |root| && v < |root| && root[u] == root[v]
    ensures Connected(g, u, v)
  {
    ConnectedSym(g, v, root[v]);
    ConnectedTrans(g, u, root[u], v);
  }

  /** A closed class of a sound labelling is a component. */
  lemma ClassIsComponent(g: set<Edge>, root: seq<nat>, v: nat)
    requires Labelling(root) && Sound(g, root) && v < |root|
    requires Closed(g, Class(root, root[v]))
    ensures Class(root, root[v]) == Component(g, |root|, v)
  {
    forall u | 0 <= u < |root|
      ensures u in Class(root, root[v]) <==> Connected(g, v, u)
    {
      if root[u] == root[v] {
        SoundSameClass(g, root, v, u);
      }
      if Connected(g, v, u) {
        ClosedReach(g, Class(root, root[v]), v, u);
      }
    }
  }

  /** A closed part of a class of a sound labelling is the whole class. */
  lemma ClosedPartIsClass(g: set<Edge>, root: seq<nat>, s: set<nat>, v: nat)
    requires Sound(g, root) && v < |root| && v in s
    requires s <= Class(root, root[v]) && Closed(g, s)
    ensures s == Class(root, root[v])
  {
    forall u | u in Class(root, root[v])
      ensures u in s
    {
      SoundSameClass(g, root, v, u);
      ClosedReach(g, s, v, u);
    }
  }

  /** A coarser labelling keeps whole classes together. */
  lemma CoarserClass(finer: seq<nat>, root: seq<nat>, v: nat)
    requires Coarsens(finer, root) && Labelling(finer) && v < |root|
    ensures Class(finer, finer[v]) <= Class(root, root[v])
  {
  }

  ghost predicate IsClass(root: seq<nat>, s: set<nat>) {
    exists v | 0 <= v < |root| :: s == Class(root, root[v])
  }

  /** `sets` lists the classes of `root`, each once. */
  ghost predicate ListsClasses(root: seq<nat>, sets: seq<set<nat>>) {
    && (forall k | 0 <= k < |sets| :: IsClass(root, sets[k]))
    && (forall v | 0 <= v < |root| :: Class(root, root[v]) in sets)
    && (forall j, k | 0 <= j < k < |sets| :: sets[j] != sets[k])
  }

  /** The classes of a sound labelling without crossing edges are the components. */
  lemma ClassesAreComponents(g: set<Edge>, root: seq<nat>, sets: seq<set<nat>>)
    requires Labelling(root) && Sound(g, root) && ListsClasses(root, sets)
    requires forall v | 0 <= v < |root| :: Closed(g, Class(root, root[v]))
    ensures IsComponents(g, |root|, sets)
  {
    forall v | 0 <= v < |root|
      ensures Class(root, root[v]) == Component(g, |root|, v)
    {
      ClassIsComponent(g, root, v);
    }
    forall k | 0 <= k < |sets|
      ensures IsComponent(g, |root|, sets[k])
    {
      assert IsClass(root, sets[k]);
      var v :| 0 <= v < |root| && sets[k] == Class(root, root[v]);
      assert sets[k] == Component(g, |root|, v);
    }
    forall v | 0 <= v < |root|
      ensures Component(g, |root|, v) in sets
    {
      assert Class(root, root[v]) in sets;
    }
  }

  /** Two lists of the components of one graph are rearrangements of each other. */
  lemma ComponentsUnique(g: set<Edge>, n: nat, xs: seq<set<nat>>, ys: seq<set<nat>>)
    requires IsComponents(g, n, xs) && IsComponents(g, n, ys)
    ensures multiset(xs) == multiset(ys)
  {
    forall s: set<nat>
      ensures multiset(xs)[s] == multiset(ys)[s]
    {
      CountInComponents(g, n, xs, s);
      CountInComponents(g, n, ys, s);
    }
  }

  /** A rearrangement of a list of the components is one. */
  lemma ComponentsRearranged(g: set<Edge>, n: nat, xs: seq<set<nat>>, ys: seq<set<nat>>)
    requires IsComponents(g, n, xs) && multiset(xs) == multiset(ys)
    ensures IsComponents(g, n, ys)
  {
    forall s: set<nat>
      ensures s in ys <==> s in xs
    {
      assert s in multiset(xs) <==> s in multiset(ys);
    }
    forall k | 0 <= k < |ys|
      ensures IsComponent(g, n, ys[k])
    {
      assert ys[k] in ys;
      var j :| 0 <= j < |xs| && xs[j] == ys[k];
    }
    forall j, k | 0 <= j < k < |ys|
      ensures ys[j] != ys[k]
    {
      CountInComponents(g, n, xs, ys[j]);
      TwiceCounts(ys, j, k);
    }
  }

  lemma TwiceCounts(ys: seq<set<nat>>, j: nat, k: nat)
    requires j < k < |ys|
    ensures ys[j] == ys[k] ==> multiset(ys)[ys[j]] >= 2
  {
    assert ys == ys[..j] + [ys[j]] + ys[j + 1..k] + [ys[k]] + ys[k + 1..];
  }

  lemma CountInComponents(g: set<Edge>, n: nat, xs: seq<set<nat>>, s: set<nat>)
    requires IsComponents(g, n, xs)
    ensures multiset(xs)[s] == if IsComponent(g, n, s) then 1 else 0
  {
    if s in xs {
      var k :| 0 <= k < |xs| && xs[k] == s;
      assert xs == xs[..k] + [xs[k]] + xs[k + 1..];
      assert s !in xs[..k] && s !in xs[k + 1..];
    }
  }
}
