/**
 * Overlay graphs as values: the states that OverlayTopology's `nodes` field runs through, and
 * the effect of each of its edits.
 */
module Graphs {
  import opened Identifiers

  type Graph = map<NodeId, set<NodeId>>

  /** getNeighbors: an unknown node has none. */
  function Nbrs(g: Graph, n: NodeId): set<NodeId> {
    if n in g then g[n] else {}
  }

  ghost predicate Closed(g: Graph) {
    forall a, b :: b in Nbrs(g, a) ==> b in g
  }

  ghost predicate Symmetric(g: Graph) {
    forall a, b :: b in Nbrs(g, a) ==> a in Nbrs(g, b)
  }

  ghost predicate LoopFree(g: Graph) {
    forall a :: a !in Nbrs(g, a)
  }

  ghost predicate WellFormed(g: Graph) {
    Closed(g) && Symmetric(g) && LoopFree(g)
  }

  function Degree(g: Graph, n: NodeId): nat {
    |Nbrs(g, n)|
  }

  // ----- the edits -----

  /** Node v reports `reported` as its neighbours. */
  function Updated(g: Graph, v: NodeId, reported: set<NodeId>): Graph {
    var known := set n | n in reported && n in g && n != v;
    map n | n in g.Keys + {v} ::
      if n == v then known
      else if n in known then g[n] + {v}
      else g[n] - {v}
  }

  /** Node v is removed, together with its links. */
  function Left(g: Graph, v: NodeId): Graph {
    map n | n in g.Keys - {v} :: g[n] - {v}
  }

  /** The link n1-n2 is replaced by n1-v and v-n2. */
  function Spliced(g: Graph, v: NodeId, n1: NodeId, n2: NodeId): Graph {
    map n | n in g ::
      if n == v then g[n] + {n1, n2}
      else if n == n1 then g[n] - {n2} + {v}
      else if n == n2 then g[n] - {n1} + {v}
      else g[n]
  }

  /**
   * g' has taken over what v reports: v is linked, on both sides, to the known nodes in the report and
   * to no other node, and links between other nodes are as they were.
   */
  ghost predicate TakesReport(g: Graph, v: NodeId, reported: set<NodeId>, g': Graph) {
    && g'.Keys == g.Keys + {v}
    && (forall n :: n in Nbrs(g', v) <==> n in reported && n in g && n != v)
    && (forall n :: n in g && n != v ==> (v in Nbrs(g', n) <==> n in reported))
    && (forall a, b :: a != v && b != v ==> (b in Nbrs(g', a) <==> b in Nbrs(g, a)))
  }

  /** Only one graph does so. */
  lemma UpdatedIff(g: Graph, v: NodeId, reported: set<NodeId>, g': Graph)
    ensures g' == Updated(g, v, reported) <==> TakesReport(g, v, reported, g')
  {
    var u := Updated(g, v, reported);
    assert TakesReport(g, v, reported, u);
    if TakesReport(g, v, reported, g') {
      forall n | n in u ensures g'[n] == u[n] {
        forall m ensures m in Nbrs(g', n) <==> m in Nbrs(u, n) {}
        assert Nbrs(g', n) == Nbrs(u, n);
      }
    }
  }

  lemma UpdatedWellFormed(g: Graph, v: NodeId, reported: set<NodeId>)
    requires WellFormed(g)
    ensures WellFormed(Updated(g, v, reported))
  {
    var g' := Updated(g, v, reported);
    forall a, b | b in Nbrs(g', a) ensures b in g' && a in Nbrs(g', b) {
      if a != v && b != v { assert b in Nbrs(g, a) && a in Nbrs(g, b); }
      assert b in g';
    }
    forall a ensures a !in Nbrs(g', a) {
      assert a !in Nbrs(g, a);
    }
  }

  lemma LeftWellFormed(g: Graph, v: NodeId)
    requires WellFormed(g)
    ensures WellFormed(Left(g, v))
  {
    var g' := Left(g, v);
    forall a, b | b in Nbrs(g', a) ensures b in g' && a in Nbrs(g', b) {
      assert b in Nbrs(g, a) && a in Nbrs(g, b);
    }
    forall a ensures a !in Nbrs(g', a) {
      assert a !in Nbrs(g, a);
    }
  }

  lemma SplicedWellFormed(g: Graph, v: NodeId, n1: NodeId, n2: NodeId)
    requires WellFormed(g) && v in g
    requires n1 in g && n1 != v && v !in Nbrs(g, n1)
    requires n2 in Nbrs(g, n1) && v !in Nbrs(g, n2)
    ensures WellFormed(Spliced(g, v, n1, n2))
  {
    var g' := Spliced(g, v, n1, n2);
    assert n2 in g && n1 in Nbrs(g, n2) && n1 != n2;
    assert n2 != v;
    forall a, b | b in Nbrs(g', a) ensures b in g' && a in Nbrs(g', b) {
      if a != v && b != v { assert b in Nbrs(g, a) && a in Nbrs(g, b); }
      else if a == v && b !in {n1, n2} { assert b in Nbrs(g, v); assert v in Nbrs(g, b); }
      else if b == v && a !in {n1, n2} { assert v in Nbrs(g, a); assert a in Nbrs(g, v); }
    }
    forall a ensures a !in Nbrs(g', a) {
      assert a !in Nbrs(g, a);
    }
  }

  // ----- connectivity -----

  ghost predicate Path(g: Graph, p: seq<NodeId>) {
    && p != []
    && (forall n :: n in p ==> n in g)
    && forall i :: 0 <= i < |p| - 1 ==> p[i + 1] in Nbrs(g, p[i])
  }

  ghost predicate Joined(g: Graph, a: NodeId, b: NodeId) {
    exists p :: Path(g, p) && p[0] == a && p[|p| - 1] == b
  }

  ghost predicate Connected(g: Graph) {
    forall a, b :: a in g && b in g ==> Joined(g, a, b)
  }

  lemma JoinedSelf(g: Graph, a: NodeId)
    requires a in g
    ensures Joined(g, a, a)
  {
    assert Path(g, [a]);
  }

  lemma JoinedEdge(g: Graph, a: NodeId, b: NodeId)
    requires a in g && b in g && b in Nbrs(g, a)
    ensures Joined(g, a, b)
  {
    var p := [a, b];
    assert Path(g, p) && p[0] == a && p[|p| - 1] == b;
  }

  lemma JoinedTrans(g: Graph, a: NodeId, b: NodeId, c: NodeId)
    requires Joined(g, a, b) && Joined(g, b, c)
    ensures Joined(g, a, c)
  {
    var p :| Path(g, p) && p[0] == a && p[|p| - 1] == b;
    var q :| Path(g, q) && q[0] == b && q[|q| - 1] == c;
    var r := p + q[1..];
    forall i | 0 <= i < |r| - 1 ensures r[i + 1] in Nbrs(g, r[i]) {
      if i < |p| - 1 {
        assert p[i + 1] in Nbrs(g, p[i]);
      } else {
        var j := i - (|p| - 1);
        assert r[i] == q[j] && r[i + 1] == q[j + 1];
        assert q[j + 1] in Nbrs(g, q[j]);
      }
    }
    assert Path(g, r) && r[0] == a && r[|r| - 1] == c;
  }

  /** g' keeps every link of g, as a link or as a detour. */
  ghost predicate KeepsLinks(g: Graph, g': Graph) {
    g.Keys <= g'.Keys && forall a, b :: b in Nbrs(g, a) && b in g ==> Joined(g', a, b)
  }

  lemma {:induction false} KeepsPath(g: Graph, g': Graph, p: seq<NodeId>)
    requires KeepsLinks(g, g') && Path(g, p)
    ensures Joined(g', p[0], p[|p| - 1])
  {
    if |p| == 1 {
      JoinedSelf(g', p[0]);
    } else {
      var q := p[..|p| - 1];
      forall n | n in q ensures n in g { assert n in p; }
      assert Path(g, q);
      KeepsPath(g, g', q);
      var i := |p| - 2;
      assert p[i + 1] in Nbrs(g, p[i]) && p[i + 1] in p;
      assert q[|q| - 1] == p[i];
      JoinedTrans(g', p[0], p[i], p[i + 1]);
    }
  }

  /** Nodes joined in g stay joined in g'. */
  lemma KeepsJoined(g: Graph, g': Graph)
    requires KeepsLinks(g, g')
    ensures forall a, b :: Joined(g, a, b) ==> Joined(g', a, b)
  {
    forall a, b | Joined(g, a, b) ensures Joined(g', a, b) {
      var p :| Path(g, p) && p[0] == a && p[|p| - 1] == b;
      KeepsPath(g, g', p);
    }
  }

  /** No path leaves a set of nodes that is closed under neighbours. */
  lemma {:induction false} ClosedSetHoldsPath(g: Graph, s: set<NodeId>, p: seq<NodeId>)
    requires forall a, b :: a in s && b in Nbrs(g, a) ==> b in s
    requires Path(g, p) && p[0] in s
    ensures p[|p| - 1] in s
  {
    if |p| <= 1 {
    } else {
      var q := p[..|p| - 1];
      forall n | n in q ensures n in g { assert n in p; }
      assert Path(g, q);
      ClosedSetHoldsPath(g, s, q);
      var i := |p| - 2;
      assert p[i + 1] in Nbrs(g, p[i]) && q[|q| - 1] == p[i];
    }
  }
}
