/** Edge sets given by indices, and the edges that leave a set of nodes. */
module Cuts {
  import opened Words
  import opened Gf2
  import opened Pairing
  import opened Connectivity

  ghost function Decoded(edges: set<u64>): set<Edge> {
    set x | x in edges :: Unpair(x)
  }

  ghost predicate ValidEdges(edges: set<u64>, n: nat) {
    forall x | x in edges :: Unpair(x).0 < Unpair(x).1 < n
  }

  lemma DecodedInRange(edges: set<u64>, n: nat)
    requires ValidEdges(edges, n)
    ensures InRange(Decoded(edges), n)
  {
  }

  /** The edges with exactly one end in `s`. */
  ghost function Cut(edges: set<u64>, s: set<nat>): set<u64> {
    set x | x in edges && ((Unpair(x).0 in s) != (Unpair(x).1 in s))
  }

  /** Joining two disjoint node sets: edges between them cancel. */
  lemma CutUnion(edges: set<u64>, s: set<nat>, t: set<nat>)
    requires s !! t
    ensures Cut(edges, s + t) == SymDiff(Cut(edges, s), Cut(edges, t))
  {
  }

  lemma CutClosed(edges: set<u64>, s: set<nat>)
    ensures Cut(edges, s) == {} <==> Closed(Decoded(edges), s)
  {
    if Closed(Decoded(edges), s) {
      forall x | x in edges
        ensures x !in Cut(edges, s)
      {
        assert Unpair(x) in Decoded(edges);
      }
    }
    if Cut(edges, s) == {} {
      forall e | e in Decoded(edges)
        ensures e.0 in s <==> e.1 in s
      {
        var x :| x in edges && Unpair(x) == e;
        assert x !in Cut(edges, s);
      }
    }
  }
}
