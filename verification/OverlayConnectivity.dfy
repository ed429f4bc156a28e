/** Exactly when formInstructions keeps joined nodes joined, also for a node over its limit. */
module OverlayConnectivity {
  import opened Identifiers
  import opened Collections
  import opened Graphs
  import opened OverlayPlans
  import opened OverlayTheorems
  import opened OverlayRuns

  ghost predicate KeepsAllJoined(g: Graph, g': Graph) {
    forall a, b :: Joined(g, a, b) ==> Joined(g', a, b)
  }

  /** Some kept neighbour reaches n without going through v. */
  ghost predicate ReachedByKept(g: Graph, v: NodeId, kept: set<NodeId>, n: NodeId) {
    exists k :: k in kept && Joined(Left(g, v), k, n)
  }

  ghost predicate DroppedStayReachable(g: Graph, v: NodeId, kept: set<NodeId>) {
    forall n :: n in Nbrs(g, v) - kept ==> ReachedByKept(g, v, kept, n)
  }

  // ----- the trim -----

  /** v keeps its links to `kept` and loses the others; nothing else changes. */
  ghost predicate OnlyKept(g: Graph, v: NodeId, kept: set<NodeId>, g': Graph) {
    && g'.Keys == g.Keys && kept <= Nbrs(g, v) && Nbrs(g', v) == kept
    && (forall n :: n != v ==> Nbrs(g', n) == if n in kept then Nbrs(g, n) else Nbrs(g, n) - {v})
  }

  lemma TrimOnlyKeeps(g: Graph, v: NodeId, kept: set<NodeId>)
    requires WellFormed(g) && v in g && kept <= Nbrs(g, v)
    ensures OnlyKept(g, v, kept, Updated(g, v, kept))
  {
    forall n | n in kept ensures n in g && n != v && v in Nbrs(g, n) {
      assert n in Nbrs(g, v);
    }
  }

  /** Paths around v are still there. */
  lemma AroundStays(g: Graph, v: NodeId, kept: set<NodeId>, g': Graph)
    requires OnlyKept(g, v, kept, g')
    ensures KeepsAllJoined(Left(g, v), g')
  {
    var around := Left(g, v);
    forall a, b | b in Nbrs(around, a) && b in around ensures Joined(g', a, b) {
      assert a != v && a in g && b in Nbrs(g, a) && b != v;
      JoinedEdge(g', a, b);
    }
    KeepsJoined(around, g');
  }

  lemma {:induction false} PathBack(g: Graph, p: seq<NodeId>)
    requires Symmetric(g) && Path(g, p)
    ensures Joined(g, p[|p| - 1], p[0])
  {
    if |p| == 1 {
      JoinedSelf(g, p[0]);
    } else {
      var q, last := p[..|p| - 1], p[|p| - 1];
      forall n | n in q ensures n in g { assert n in p; }
      assert Path(g, q) && q[|q| - 1] == p[|p| - 2] && last in p && q[|q| - 1] in p;
      assert p[|p| - 2 + 1] in Nbrs(g, p[|p| - 2]);
      assert q[|q| - 1] in Nbrs(g, last);
      PathBack(g, q);
      JoinedEdge(g, last, q[|q| - 1]);
      JoinedTrans(g, last, q[|q| - 1], p[0]);
    }
  }

  lemma JoinedBack(g: Graph, a: NodeId, b: NodeId)
    requires Symmetric(g) && Joined(g, a, b)
    ensures Joined(g, b, a)
  {
    var p :| Path(g, p) && p[0] == a && p[|p| - 1] == b;
    PathBack(g, p);
  }

  /** A dropped neighbour that a kept one reaches around v stays joined to v. */
  lemma DetourForDropped(g: Graph, v: NodeId, kept: set<NodeId>, g': Graph, n: NodeId)
    requires WellFormed(g) && WellFormed(g') && v in g && OnlyKept(g, v, kept, g') && ReachedByKept(g, v, kept, n)
    ensures Joined(g', v, n) && Joined(g', n, v)
  {
    AroundStays(g, v, kept, g');
    var k :| k in kept && Joined(Left(g, v), k, n);
    assert k in Nbrs(g', v) && k in g';
    JoinedEdge(g', v, k);
    JoinedTrans(g', v, k, n);
    JoinedBack(g', v, n);
  }

  lemma ReachableKeepsAll(g: Graph, v: NodeId, kept: set<NodeId>, g': Graph)
    requires WellFormed(g) && WellFormed(g') && v in g && OnlyKept(g, v, kept, g') && DroppedStayReachable(g, v, kept)
    ensures KeepsAllJoined(g, g')
  {
    forall a, b | b in Nbrs(g, a) && b in g ensures Joined(g', a, b) {
      assert a in g && a in Nbrs(g, b);
      if b in Nbrs(g', a) {
        JoinedEdge(g', a, b);
      } else if a == v {
        DetourForDropped(g, v, kept, g', b);
      } else {
        DetourForDropped(g, v, kept, g', a);
      }
    }
    KeepsJoined(g, g');
  }

  /** What v still reaches after the trim: itself, and what kept neighbours reach around it. */
  ghost function StillReached(g: Graph, v: NodeId, kept: set<NodeId>): set<NodeId> {
    set x | x in g && (x == v || ReachedByKept(g, v, kept, x))
  }

  lemma StillReachedIsClosed(g: Graph, v: NodeId, kept: set<NodeId>, g': Graph)
    requires WellFormed(g) && v in g && OnlyKept(g, v, kept, g')
    ensures forall a, b :: a in StillReached(g, v, kept) && b in Nbrs(g', a) ==> b in StillReached(g, v, kept)
  {
    var around := Left(g, v);
    forall a, b | a in StillReached(g, v, kept) && b in Nbrs(g', a) && b != v ensures b in StillReached(g, v, kept) {
      assert b in Nbrs(g, a) && b in g && b in around;
      if a == v {
        JoinedSelf(around, b);
      } else {
        var k :| k in kept && Joined(around, k, a);
        assert a in around && b in Nbrs(around, a);
        JoinedEdge(around, a, b);
        JoinedTrans(around, k, a, b);
      }
    }
  }

  lemma KeepsAllNeedsReachable(g: Graph, v: NodeId, kept: set<NodeId>, g': Graph)
    requires WellFormed(g) && v in g && OnlyKept(g, v, kept, g') && KeepsAllJoined(g, g')
    ensures DroppedStayReachable(g, v, kept)
  {
    forall n | n in Nbrs(g, v) - kept ensures ReachedByKept(g, v, kept, n) {
      assert n in g && n != v;
      JoinedEdge(g, v, n);
      assert Joined(g', v, n);
      var p :| Path(g', p) && p[0] == v && p[|p| - 1] == n;
      StillReachedIsClosed(g, v, kept, g');
      ClosedSetHoldsPath(g', StillReached(g, v, kept), p);
    }
  }

  /**
   * A node over its limit: its call keeps every two joined nodes joined if and only if each
   * neighbour that it drops can be reached from one that it keeps without going through it.
   */
  lemma TrimKeepsJoinedIff(g: Graph, v: NodeId, limit: nat, plan: Plan)
    requires WellFormed(g) && LegalPlan(g, v, limit, plan) && Degree(g, v) > limit
    ensures KeepsAllJoined(g, Outcome(g, v, limit, plan)) <==> DroppedStayReachable(g, v, plan.kept)
  {
    OverLimitOnlyTrims(g, v, limit, plan);
    PlanWellFormed(g, v, limit, plan);
    TrimOnlyKeeps(g, v, plan.kept);
    var g' := Outcome(g, v, limit, plan);
    if DroppedStayReachable(g, v, plan.kept) {
      ReachableKeepsAll(g, v, plan.kept, g');
    } else if KeepsAllJoined(g, g') {
      KeepsAllNeedsReachable(g, v, plan.kept, g');
    }
  }

  // ----- before the call -----

  /** The neighbours of v, n among them, that are joined to n around v. */
  ghost function Companions(g: Graph, v: NodeId, n: NodeId): set<NodeId> {
    set m | m in Nbrs(g, v) && Joined(Left(g, v), m, n)
  }

  /** No group of neighbours is so small that the trim could drop all of it. */
  ghost predicate NoSmallGroup(g: Graph, v: NodeId, limit: nat) {
    forall n :: n in Nbrs(g, v) ==> |Companions(g, v, n)| > Degree(g, v) - limit
  }

  lemma DroppedCount(g: Graph, v: NodeId, limit: nat, kept: set<NodeId>)
    requires kept <= Nbrs(g, v) && |kept| == limit
    ensures |Nbrs(g, v) - kept| == Degree(g, v) - limit
  {
    assert Nbrs(g, v) == kept + (Nbrs(g, v) - kept);
  }

  lemma BigGroupsStayReachable(g: Graph, v: NodeId, limit: nat, kept: set<NodeId>)
    requires WellFormed(g) && kept <= Nbrs(g, v) && |kept| == limit && NoSmallGroup(g, v, limit)
    ensures DroppedStayReachable(g, v, kept)
  {
    DroppedCount(g, v, limit, kept);
    forall n | n in Nbrs(g, v) - kept ensures ReachedByKept(g, v, kept, n) {
      var group := Companions(g, v, n);
      if group <= Nbrs(g, v) - kept {
        SubsetSize(group, Nbrs(g, v) - kept);
        assert false;
      }
      var k :| k in group && k in kept;
    }
  }

  lemma {:induction false} SubsetOfSize(s: set<NodeId>, size: nat) returns (r: set<NodeId>)
    requires size <= |s|
    ensures r <= s && |r| == size
    decreases |s|
  {
    if size == |s| {
      r := s;
    } else {
      var x :| x in s;
      r := SubsetOfSize(s - {x}, size);
    }
  }

  /** The shuffle may put any `limit` neighbours first. */
  lemma AnyTrimIsLegal(g: Graph, v: NodeId, limit: nat, kept: set<NodeId>)
    requires WellFormed(g) && v in g && Degree(g, v) > limit && kept <= Nbrs(g, v) && |kept| == limit
    ensures LegalPlan(g, v, limit, Plan(kept, {}, []))
  {
    TrimStep(g, v, limit, kept);
    assert Degree(Trimmed(g, v, limit, kept), v) == limit;
  }

  /** A small group of neighbours can be dropped as a whole, which cuts it off. */
  lemma SmallGroupCanBeCut(g: Graph, v: NodeId, limit: nat, n: NodeId) returns (plan: Plan)
    requires WellFormed(g) && v in g && Degree(g, v) > limit
    requires n in Nbrs(g, v) && |Companions(g, v, n)| <= Degree(g, v) - limit
    ensures LegalPlan(g, v, limit, plan) && !KeepsAllJoined(g, Outcome(g, v, limit, plan))
  {
    var group := Companions(g, v, n);
    assert Nbrs(g, v) == group + (Nbrs(g, v) - group);
    var kept := SubsetOfSize(Nbrs(g, v) - group, limit);
    plan := Plan(kept, {}, []);
    AnyTrimIsLegal(g, v, limit, kept);
    TrimKeepsJoinedIff(g, v, limit, plan);
    assert n in g && n != v && n in Left(g, v);
    JoinedSelf(Left(g, v), n);
    assert n in group && n !in kept;
    assert !ReachedByKept(g, v, kept, n);
  }

  /**
   * Whatever the shuffles are, a call for v keeps every two joined nodes joined, if and only if v is
   * not over the limit, or each neighbour of v belongs to a group of neighbours, joined to each other
   * around v, that has more members than the trim drops.
   */
  lemma ConnectivityExact(g: Graph, v: NodeId, limit: nat)
    requires WellFormed(g) && v in g
    ensures (forall plan :: LegalPlan(g, v, limit, plan) ==> KeepsAllJoined(g, Outcome(g, v, limit, plan))) <==>
            Degree(g, v) <= limit || NoSmallGroup(g, v, limit)
  {
    if Degree(g, v) <= limit || NoSmallGroup(g, v, limit) {
      forall plan | LegalPlan(g, v, limit, plan) ensures KeepsAllJoined(g, Outcome(g, v, limit, plan)) {
        if Degree(g, v) <= limit {
          KeepsConnectivity(g, v, limit, plan);
        } else {
          BigGroupsStayReachable(g, v, limit, plan.kept);
          TrimKeepsJoinedIff(g, v, limit, plan);
        }
      }
    } else {
      var n :| n in Nbrs(g, v) && |Companions(g, v, n)| <= Degree(g, v) - limit;
      var plan := SmallGroupCanBeCut(g, v, limit, n);
    }
  }

  // ----- a run that gets there -----

  /** With limit 1, nodes b and c report a as their neighbour; then a is formed instructions for. */
  function OverfullRun(a: NodeId, b: NodeId, c: NodeId): seq<Edit> {
    [Update(a, {}), Update(b, {a}), Update(c, {a}), Form(a, Plan({b}, {}, []))]
  }

  lemma ReportsOverfill(a: NodeId, b: NodeId, c: NodeId)
    requires a != b && a != c && b != c
    ensures Updated(map[], a, {}) == map[a := {}]
    ensures Updated(map[a := {}], b, {a}) == map[a := {b}, b := {a}]
    ensures Updated(map[a := {b}, b := {a}], c, {a}) == map[a := {b, c}, b := {a}, c := {a}]
  {
    var none: Graph, two := map[], map[a := {b}, b := {a}];
    assert Updated(none, a, {}).Keys == {a} && Updated(none, a, {})[a] == {};
    assert Updated(map[a := {}], b, {a})[a] == {b} && Updated(map[a := {}], b, {a})[b] == {a};
    assert Updated(two, c, {a})[a] == {b, c} && Updated(two, c, {a})[b] == {a} && Updated(two, c, {a})[c] == {a};
  }

  lemma OverfullStates(a: NodeId, b: NodeId, c: NodeId)
    requires a != b && a != c && b != c
    ensures var run := OverfullRun(a, b, c);
      AfterEdits(1, run[..3]) == map[a := {b, c}, b := {a}, c := {a}] && LegalEdits(1, run[..3])
  {
    var run := OverfullRun(a, b, c);
    var one, two, three := run[..1], run[..2], run[..3];
    assert one[..0] == [] && two[..1] == one && three[..2] == two;
    assert one[0] == Update(a, {}) && two[1] == Update(b, {a}) && three[2] == Update(c, {a});
    ReportsOverfill(a, b, c);
    assert LegalEdits(1, []) && LegalEdits(1, one) && LegalEdits(1, two);
    assert AfterEdits(1, one) == Updated(map[], a, {});
    assert AfterEdits(1, two) == Updated(AfterEdits(1, one), b, {a});
    assert AfterEdits(1, three) == Updated(AfterEdits(1, two), c, {a});
  }

  lemma OverfullGraph(a: NodeId, b: NodeId, c: NodeId)
    requires a != b && a != c && b != c
    ensures var g := map[a := {b, c}, b := {a}, c := {a}];
      && WellFormed(g) && Degree(g, a) == 2 && Nbrs(g, a) == {b, c} && Nbrs(g, c) == {a}
  {
    assert |{b, c}| == 2;
  }

  /**
   * A reachable overlay in which the promise fails: two nodes report a third as their neighbour, which
   * then is over its limit, drops one of them, cuts it off with that and sends it no instruction.
   */
  lemma OverfullRunCutsOff(a: NodeId, b: NodeId, c: NodeId)
    requires a != b && a != c && b != c
    ensures var run := OverfullRun(a, b, c);
      var before, after := AfterEdits(1, run[..3]), AfterEdits(1, run);
      && LegalEdits(1, run) && Degree(before, a) > 1
      && Joined(before, a, c) && !Joined(after, a, c)
      && c in Changed(before, after) && c !in Instructions(before, a, 1, run[3].plan, false)
  {
    var run := OverfullRun(a, b, c);
    var g := AfterEdits(1, run[..3]);
    OverfullStates(a, b, c);
    OverfullGraph(a, b, c);
    assert {b} <= Nbrs(g, a) && |{b}| == 1;
    AnyTrimIsLegal(g, a, 1, {b});
    assert run[..|run| - 1] == run[..3];
    TrimIsolatesLeaf(g, a, 1, Plan({b}, {}, []), c);
    PlanWellFormed(g, a, 1, Plan({b}, {}, []));
    OverLimitOnlyTrims(g, a, 1, Plan({b}, {}, []));
    assert c in Changed(g, Outcome(g, a, 1, Plan({b}, {}, [])));
  }
}
