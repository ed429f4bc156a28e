/** Whole runs of overlay edits: stabilisation, growth by joins, and reachable graphs. */
module OverlayRuns {
  import opened Identifiers
  import opened Collections
  import opened Sums
  import opened Graphs
  import opened OverlayPlans
  import opened OverlayTheorems

  // ----- stabilisation -----

  function ExcessOf(g: Graph, limit: nat): map<NodeId, int> {
    map n | n in g :: if Degree(g, n) > limit then Degree(g, n) - limit else 0
  }

  function MissingOf(g: Graph, limit: nat): map<NodeId, int> {
    map n | n in g :: if Degree(g, n) < limit then limit - Degree(g, n) else 0
  }

  /** Number of links by which nodes exceed the limit, summed over all nodes. */
  ghost function Excess(g: Graph, limit: nat): (e: nat) {
    SumNonNegative(ExcessOf(g, limit));
    Sum(ExcessOf(g, limit))
  }

  /** Number of open slots, summed over all nodes. */
  ghost function Missing(g: Graph, limit: nat): (e: nat)
    ensures e <= |g| * limit
  {
    SumBound(MissingOf(g, limit), limit);
    assert MissingOf(g, limit).Keys == g.Keys && |MissingOf(g, limit)| == |g|;
    Sum(MissingOf(g, limit))
  }

  /** A trim lowers the excess. */
  lemma TrimLowersExcess(g: Graph, v: NodeId, limit: nat, plan: Plan)
    requires WellFormed(g) && LegalPlan(g, v, limit, plan) && Degree(g, v) > limit
    ensures Excess(Outcome(g, v, limit, plan), limit) < Excess(g, limit)
  {
    OverLimitOnlyTrims(g, v, limit, plan);
    var g' := Outcome(g, v, limit, plan);
    SumDrop(ExcessOf(g, limit), ExcessOf(g', limit), v, 1);
  }

  /** The degrees after a call by a node within its limit. */
  ghost predicate DegreesGrow(g: Graph, v: NodeId, limit: nat, added: set<NodeId>, spliced: nat, g': Graph) {
    && g'.Keys == g.Keys && v in g && v !in added
    && Degree(g', v) == Degree(g, v) + |added| + 2 * spliced <= limit
    && (forall n :: n in added ==> n in g && Degree(g', n) == Degree(g, n) + 1 <= limit)
    && (forall n :: n != v && n !in added ==> Degree(g', n) == Degree(g, n))
  }

  lemma PhasesGrow(g: Graph, v: NodeId, limit: nat, plan: Plan, g2: Graph, g': Graph)
    requires v in g && LinkEffect(g, v, limit, plan.added, g2) && SpliceEffect(g2, v, limit, plan.splices, g')
    ensures DegreesGrow(g, v, limit, plan.added, |plan.splices|, g')
  {
    forall n | n != v && n !in plan.added ensures Degree(g', n) == Degree(g, n) {
      assert Nbrs(g2, n) == Nbrs(g, n);
    }
  }

  lemma PlanGrows(g: Graph, v: NodeId, limit: nat, plan: Plan)
    requires WellFormed(g) && LegalPlan(g, v, limit, plan) && Degree(g, v) <= limit
    ensures DegreesGrow(g, v, limit, plan.added, |plan.splices|, Outcome(g, v, limit, plan))
  {
    PlanEffect(g, v, limit, plan);
    PhasesGrow(g, v, limit, plan, BeforeSplices(g, v, limit, plan), Outcome(g, v, limit, plan));
  }

  lemma GrowthKeepsExcess(g: Graph, v: NodeId, limit: nat, added: set<NodeId>, spliced: nat, g': Graph)
    requires DegreesGrow(g, v, limit, added, spliced, g')
    ensures Excess(g', limit) == Excess(g, limit)
  {
    assert ExcessOf(g', limit) == ExcessOf(g, limit);
  }

  lemma GrowthLowersMissing(g: Graph, v: NodeId, limit: nat, added: set<NodeId>, spliced: nat, g': Graph)
    requires DegreesGrow(g, v, limit, added, spliced, g') && (added != {} || spliced > 0)
    ensures Missing(g', limit) + 2 <= Missing(g, limit)
  {
    var m, m' := MissingOf(g, limit), MissingOf(g', limit);
    if spliced > 0 {
      SumDrop(m, m', v, 2);
    } else {
      var n :| n in added;
      assert |added| >= 1 by { assert added != {}; }
      SumDropTwo(m, m', v, n, 1, 1);
    }
  }

  /**
   * The measure (excess, missing) falls lexicographically with every unforced call that has a
   * non-empty result: each disconnect must free two slots, or the chain would not end.
   */
  lemma MeasureFalls(g: Graph, v: NodeId, limit: nat, plan: Plan)
    requires WellFormed(g) && LegalPlan(g, v, limit, plan)
    requires Instructions(g, v, limit, plan, false) != map[]
    ensures var g' := Outcome(g, v, limit, plan);
      || Excess(g', limit) < Excess(g, limit)
      || (Excess(g', limit) == Excess(g, limit) && Missing(g', limit) + 2 <= Missing(g, limit))
  {
    var g' := Outcome(g, v, limit, plan);
    if Degree(g, v) > limit {
      TrimLowersExcess(g, v, limit, plan);
    } else {
      PlanGrows(g, v, limit, plan);
      GrowthKeepsExcess(g, v, limit, plan.added, |plan.splices|, g');
      GrowthLowersMissing(g, v, limit, plan.added, |plan.splices|, g');
    }
  }

  /** An unforced call: the node it is made for, and its random choices. */
  datatype Call = Call(v: NodeId, plan: Plan)

  function AfterCalls(g: Graph, limit: nat, calls: seq<Call>): Graph {
    if calls == [] then g
    else
      var c := calls[|calls| - 1];
      Outcome(AfterCalls(g, limit, calls[..|calls| - 1]), c.v, limit, c.plan)
  }

  ghost predicate LegalCalls(g: Graph, limit: nat, calls: seq<Call>) {
    calls != [] ==>
      var q, c := calls[..|calls| - 1], calls[|calls| - 1];
      LegalCalls(g, limit, q) && LegalPlan(AfterCalls(g, limit, q), c.v, limit, c.plan)
  }

  /** How many of the calls returned instructions. */
  function NonEmptyResults(g: Graph, limit: nat, calls: seq<Call>): nat {
    if calls == [] then 0
    else
      var q, c := calls[..|calls| - 1], calls[|calls| - 1];
      var instructions := Instructions(AfterCalls(g, limit, q), c.v, limit, c.plan, false);
      NonEmptyResults(g, limit, q) + (if instructions != map[] then 1 else 0)
  }

  /** Excess weighs more than all open slots there can be. */
  ghost function Potential(g: Graph, limit: nat): nat {
    Weighted(Excess(g, limit), Missing(g, limit), |g| * limit)
  }

  function Weighted(excess: nat, missing: nat, slots: nat): nat {
    excess * (slots + 2) + missing
  }

  lemma PotentialFalls(g: Graph, v: NodeId, limit: nat, plan: Plan)
    requires WellFormed(g) && LegalPlan(g, v, limit, plan)
    requires Instructions(g, v, limit, plan, false) != map[]
    ensures Potential(Outcome(g, v, limit, plan), limit) + 2 <= Potential(g, limit)
  {
    var g' := Outcome(g, v, limit, plan);
    MeasureFalls(g, v, limit, plan);
    SameSize(g, v, limit, plan);
    var slots := |g| * limit;
    assert |g'| * limit == slots;
    WeightedFall(Excess(g, limit), Missing(g, limit), Excess(g', limit), Missing(g', limit), slots);
  }

  lemma SameSize(g: Graph, v: NodeId, limit: nat, plan: Plan)
    requires WellFormed(g) && LegalPlan(g, v, limit, plan)
    ensures Outcome(g, v, limit, plan).Keys == g.Keys && |Outcome(g, v, limit, plan)| == |g|
  {
    PlanEffect(g, v, limit, plan);
  }

  lemma WeightedFall(e: nat, m: nat, e': nat, m': nat, k: nat)
    requires m' <= k && (e' < e || (e' == e && m' + 2 <= m))
    ensures Weighted(e', m', k) + 2 <= Weighted(e, m, k)
  {
    if e' < e {
      var d := e - e' - 1;
      assert e * (k + 2) == e' * (k + 2) + d * (k + 2) + (k + 2);
      assert d * (k + 2) >= 0;
    }
  }

  lemma {:induction false} CallsLowerPotential(g: Graph, limit: nat, calls: seq<Call>)
    requires WellFormed(g) && LegalCalls(g, limit, calls)
    ensures var h := AfterCalls(g, limit, calls);
      && WellFormed(h) && h.Keys == g.Keys
      && Potential(h, limit) + 2 * NonEmptyResults(g, limit, calls) <= Potential(g, limit)
  {
    if calls == [] {
    } else {
      var q, c := calls[..|calls| - 1], calls[|calls| - 1];
      CallsLowerPotential(g, limit, q);
      var h := AfterCalls(g, limit, q);
      PlanEffect(h, c.v, limit, c.plan);
      PlanWellFormed(h, c.v, limit, c.plan);
      if Instructions(h, c.v, limit, c.plan, false) != map[] {
        PotentialFalls(h, c.v, limit, c.plan);
      } else {
        NothingToDoIffSettled(h, c.v, limit, c.plan);
      }
    }
  }

  lemma HalfOf(results: nat, excess: nat, missing: nat, slots: nat)
    requires excess == 0 && missing <= slots && 2 * results <= Weighted(excess, missing, slots)
    ensures results <= slots / 2
  {
  }

  /**
   * Stabilisation: over a fixed node set, the calls that return instructions are bounded by the
   * graph they start from; with no node over the limit they are at most half of N * limit.
   */
  lemma Stabilises(g: Graph, limit: nat, calls: seq<Call>)
    requires WellFormed(g) && LegalCalls(g, limit, calls)
    ensures 2 * NonEmptyResults(g, limit, calls) <= Potential(g, limit)
    ensures (forall n :: n in g ==> Degree(g, n) <= limit) ==>
            NonEmptyResults(g, limit, calls) <= |g| * limit / 2
  {
    CallsLowerPotential(g, limit, calls);
    if forall n :: n in g ==> Degree(g, n) <= limit {
      SumBound(ExcessOf(g, limit), 0);
      HalfOf(NonEmptyResults(g, limit, calls), Excess(g, limit), Missing(g, limit), |g| * limit);
    }
  }

  // ----- every reachable graph -----

  datatype Edit =
    | Update(v: NodeId, reported: set<NodeId>)
    | Leave(v: NodeId)
    | Form(v: NodeId, plan: Plan)

  function AfterEdits(limit: nat, edits: seq<Edit>): Graph {
    if edits == [] then map[]
    else
      var g := AfterEdits(limit, edits[..|edits| - 1]);
      match edits[|edits| - 1]
      case Update(v, reported) => Updated(g, v, reported)
      case Leave(v) => Left(g, v)
      case Form(v, plan) => Outcome(g, v, limit, plan)
  }

  ghost predicate LegalEdits(limit: nat, edits: seq<Edit>) {
    edits != [] ==>
      var q, e := edits[..|edits| - 1], edits[|edits| - 1];
      LegalEdits(limit, q) && (e.Form? ==> LegalPlan(AfterEdits(limit, q), e.v, limit, e.plan))
  }

  /** No run of edits makes a node its own neighbour, a link one-sided, or a link to a missing node. */
  lemma {:induction false} EveryReachableGraphIsWellFormed(limit: nat, edits: seq<Edit>)
    requires LegalEdits(limit, edits)
    ensures WellFormed(AfterEdits(limit, edits))
  {
    if edits == [] {
    } else {
      var q := edits[..|edits| - 1];
      EveryReachableGraphIsWellFormed(limit, q);
      var g := AfterEdits(limit, q);
      match edits[|edits| - 1] {
        case Update(v, reported) => UpdatedWellFormed(g, v, reported);
        case Leave(v) => LeftWellFormed(g, v);
        case Form(v, plan) => PlanWellFormed(g, v, limit, plan);
      }
    }
  }

  // ----- growth by joins -----

  /** Each join: a fresh node reports no neighbours, then instructions are formed for it. */
  function AfterJoins(limit: nat, joins: seq<Call>): Graph {
    if joins == [] then map[]
    else
      var j := joins[|joins| - 1];
      Outcome(Updated(AfterJoins(limit, joins[..|joins| - 1]), j.v, {}), j.v, limit, j.plan)
  }

  ghost predicate LegalJoins(limit: nat, joins: seq<Call>) {
    joins != [] ==>
      var q, j := joins[..|joins| - 1], joins[|joins| - 1];
      var g := AfterJoins(limit, q);
      LegalJoins(limit, q) && j.v !in g && LegalPlan(Updated(g, j.v, {}), j.v, limit, j.plan)
  }

  function Min(a: int, b: int): int {
    if a <= b then a else b
  }

  ghost predicate Balanced(g: Graph, limit: nat) {
    forall n :: n in g ==> Min(limit - 1, |g| - 1) <= Degree(g, n) <= limit
  }

  /** A fresh node that reports nothing is added on its own. */
  ghost predicate Arrived(g: Graph, v: NodeId, h: Graph) {
    && h.Keys == g.Keys + {v} && |h| == |g| + 1 && Nbrs(h, v) == {}
    && (forall n :: n != v ==> Nbrs(h, n) == Nbrs(g, n))
  }

  lemma FreshArrives(g: Graph, v: NodeId)
    requires WellFormed(g) && v !in g
    ensures WellFormed(Updated(g, v, {})) && Arrived(g, v, Updated(g, v, {}))
  {
    UpdatedWellFormed(g, v, {});
    var h := Updated(g, v, {});
    assert h.Keys == g.Keys + {v} && |h.Keys| == |g.Keys| + 1;
    forall n | n != v ensures Nbrs(h, n) == Nbrs(g, n) {
      assert v !in Nbrs(g, n);
    }
  }

  /** In a small graph, the new node links to every node. */
  lemma SmallGraphLinksAll(g: Graph, v: NodeId, h: Graph, limit: nat, added: set<NodeId>)
    requires WellFormed(g) && v !in g && Arrived(g, v, h) && LinkChoice(h, v, limit, added) && |g| < limit
    ensures added == g.Keys
  {
    var open := OpenNodes(h, v, limit);
    forall n | n in g ensures n in open {
      DegreeBelowSize(g, n);
      assert Nbrs(h, n) == Nbrs(g, n) && v !in Nbrs(g, n);
    }
    assert open == g.Keys;
    SubsetSize(added, open);
  }

  lemma DegreeBelowSize(g: Graph, n: NodeId)
    requires WellFormed(g) && n in g
    ensures Degree(g, n) <= |g| - 1
  {
    var others := g.Keys - {n};
    forall m | m in Nbrs(g, n) ensures m in others {
      assert m != n by { assert n !in Nbrs(g, n); }
    }
    SubsetSize(Nbrs(g, n), others);
  }

  lemma GrowthBalanced(g: Graph, v: NodeId, h: Graph, limit: nat, added: set<NodeId>, spliced: nat, g': Graph)
    requires v !in g && Balanced(g, limit) && Arrived(g, v, h) && DegreesGrow(h, v, limit, added, spliced, g')
    requires |g| < limit ==> added == g.Keys
    requires |g'| == |h| && Degree(g', v) >= Min(limit - 1, |h| - 1)
    ensures Balanced(g', limit)
  {
    forall n | n in g' && n != v ensures Min(limit - 1, |g|) <= Degree(g', n) <= limit {
      assert n in g && Nbrs(h, n) == Nbrs(g, n);
      assert Degree(h, n) == Degree(g, n);
    }
  }

  lemma JoinBalanced(g: Graph, v: NodeId, limit: nat, plan: Plan)
    requires WellFormed(g) && v !in g && Balanced(g, limit)
    requires LegalPlan(Updated(g, v, {}), v, limit, plan)
    ensures Balanced(Outcome(Updated(g, v, {}), v, limit, plan), limit)
  {
    FreshArrives(g, v);
    var h := Updated(g, v, {});
    var g' := Outcome(h, v, limit, plan);
    PlanGrows(h, v, limit, plan);
    SameSize(h, v, limit, plan);
    JoinerSaturated(h, v, limit, plan);
    JoinerLinksAll(g, v, h, limit, plan);
    GrowthBalanced(g, v, h, limit, plan.added, |plan.splices|, g');
  }

  lemma JoinerLinksAll(g: Graph, v: NodeId, h: Graph, limit: nat, plan: Plan)
    requires WellFormed(g) && v !in g && Arrived(g, v, h) && LegalPlan(h, v, limit, plan)
    ensures |g| < limit ==> plan.added == g.Keys
  {
    assert Trimmed(h, v, limit, plan.kept) == h;
    if |g| < limit {
      SmallGraphLinksAll(g, v, h, limit, plan.added);
    }
  }

  lemma JoinerSaturated(h: Graph, v: NodeId, limit: nat, plan: Plan)
    requires WellFormed(h) && LegalPlan(h, v, limit, plan)
    ensures Degree(Outcome(h, v, limit, plan), v) >= Min(limit - 1, |h| - 1)
  {
    Saturation(h, v, limit, plan);
    SameSize(h, v, limit, plan);
    var g' := Outcome(h, v, limit, plan);
    if Degree(g', v) + 1 < limit {
      SubsetSize(h.Keys - {v}, Nbrs(g', v));
    }
  }

  lemma JoinConnected(g: Graph, v: NodeId, limit: nat, plan: Plan)
    requires WellFormed(g) && v !in g && Connected(g) && (limit >= 2 || |g| <= limit)
    requires LegalPlan(Updated(g, v, {}), v, limit, plan)
    ensures Connected(Outcome(Updated(g, v, {}), v, limit, plan))
  {
    FreshArrives(g, v);
    var h := Updated(g, v, {});
    var g' := Outcome(h, v, limit, plan);
    OldNodesStayJoined(g, v, h, limit, plan);
    PlanWellFormed(h, v, limit, plan);
    SameSize(h, v, limit, plan);
    JoinedSelf(g', v);
    if g != map[] {
      JoinerLinked(g, v, h, limit, plan);
      LinkConnects(g.Keys, v, g');
    }
  }

  lemma LinkConnects(s: set<NodeId>, v: NodeId, g': Graph)
    requires WellFormed(g') && g'.Keys == s + {v} && Nbrs(g', v) != {} && Joined(g', v, v)
    requires forall a, b :: a in s && b in s ==> Joined(g', a, b)
    ensures Connected(g')
  {
    var u :| u in Nbrs(g', v);
    assert u != v && u in g' && v in Nbrs(g', u);
    JoinedEdge(g', u, v);
    JoinedEdge(g', v, u);
    forall a | a in s ensures Joined(g', a, v) && Joined(g', v, a) {
      JoinedTrans(g', a, u, v);
      JoinedTrans(g', v, u, a);
    }
  }

  lemma OldNodesStayJoined(g: Graph, v: NodeId, h: Graph, limit: nat, plan: Plan)
    requires WellFormed(g) && WellFormed(h) && v !in g && Arrived(g, v, h) && Connected(g) &&
             LegalPlan(h, v, limit, plan)
    ensures forall a, b :: a in g && b in g ==> Joined(Outcome(h, v, limit, plan), a, b)
  {
    forall a, b | b in Nbrs(g, a) && b in g ensures Joined(h, a, b) {
      assert b in Nbrs(h, a);
      JoinedEdge(h, a, b);
    }
    KeepsJoined(g, h);
    KeepsConnectivity(h, v, limit, plan);
    forall a, b | a in g && b in g ensures Joined(Outcome(h, v, limit, plan), a, b) {
      assert Joined(g, a, b);
    }
  }

  lemma JoinerLinked(g: Graph, v: NodeId, h: Graph, limit: nat, plan: Plan)
    requires WellFormed(g) && WellFormed(h) && v !in g && g != map[] && Arrived(g, v, h)
    requires (limit >= 2 || |g| <= limit) && LegalPlan(h, v, limit, plan)
    ensures Nbrs(Outcome(h, v, limit, plan), v) != {}
  {
    JoinerSaturated(h, v, limit, plan);
    if limit == 1 {
      PlanGrows(h, v, limit, plan);
      assert |g| == 1;
      OneNodeIsLinked(g, v, h, plan.added);
    }
  }

  lemma OneNodeIsLinked(g: Graph, v: NodeId, h: Graph, added: set<NodeId>)
    requires WellFormed(g) && v !in g && Arrived(g, v, h) && LinkChoice(h, v, 1, added) && |g| == 1
    ensures |added| == 1
  {
    var n :| n in g;
    DegreeBelowSize(g, n);
    assert Nbrs(h, n) == Nbrs(g, n) && v !in Nbrs(g, n);
    assert n in OpenNodes(h, v, 1);
  }

  /** With a limit of at most one link per node, three nodes cannot hang together. */
  lemma TooFewLinks(g: Graph, limit: nat)
    requires WellFormed(g) && Balanced(g, limit) && limit <= 1 && |g| > limit + 1
    ensures !Connected(g)
  {
    var a :| a in g;
    var s := {a} + Nbrs(g, a);
    assert |s| <= 1 + limit;
    forall x, y | x in s && y in Nbrs(g, x) ensures y in s {
      if x != a {
        assert a in Nbrs(g, x) && x in g;
        SubsetSize({a}, Nbrs(g, x));
        assert Nbrs(g, x) == {a};
      }
    }
    assert g.Keys - s != {} by { if g.Keys <= s { SubsetSize(g.Keys, s); } }
    var b :| b in g && b !in s;
    if Joined(g, a, b) {
      var p :| Path(g, p) && p[0] == a && p[|p| - 1] == b;
      ClosedSetHoldsPath(g, s, p);
    }
  }

  lemma {:induction false} JoinsKeepBalance(limit: nat, joins: seq<Call>)
    requires LegalJoins(limit, joins)
    ensures WellFormed(AfterJoins(limit, joins)) && |AfterJoins(limit, joins)| == |joins|
    ensures Balanced(AfterJoins(limit, joins), limit)
  {
    if joins == [] {
    } else {
      var q, j := joins[..|joins| - 1], joins[|joins| - 1];
      JoinsKeepBalance(limit, q);
      var g := AfterJoins(limit, q);
      FreshArrives(g, j.v);
      PlanWellFormed(Updated(g, j.v, {}), j.v, limit, j.plan);
      SameSize(Updated(g, j.v, {}), j.v, limit, j.plan);
      JoinBalanced(g, j.v, limit, j.plan);
    }
  }

  /**
   * An overlay that grows by joins is connected at every size if and only if the limit is at least
   * two; with a smaller limit it is connected only up to limit + 1 nodes.
   */
  lemma {:induction false} JoinsConnected(limit: nat, joins: seq<Call>)
    requires LegalJoins(limit, joins)
    ensures Connected(AfterJoins(limit, joins)) <==> limit >= 2 || |joins| <= limit + 1
  {
    JoinsKeepBalance(limit, joins);
    if limit < 2 && |joins| > limit + 1 {
      TooFewLinks(AfterJoins(limit, joins), limit);
    } else if joins != [] {
      var q, j := joins[..|joins| - 1], joins[|joins| - 1];
      JoinsKeepBalance(limit, q);
      JoinsConnected(limit, q);
      JoinConnected(AfterJoins(limit, q), j.v, limit, j.plan);
    }
  }
}
