/**
 * What one call of OverlayTopology.formInstructions may do to the overlay. The call makes random
 * choices (two injected functions); a Plan records them, LegalPlan says which choices the code can
 * make, and Outcome is the graph that results.
 */
module OverlayPlans {
  import opened Identifiers
  import opened Collections
  import opened Graphs

  /**
   * kept: the neighbours that survive the trim; added: the nodes linked through open slots;
   * splices: the pairs (n1, n2) whose link was broken, in order.
   */
  datatype Plan = Plan(kept: set<NodeId>, added: set<NodeId>, splices: seq<(NodeId, NodeId)>)

  function NonNeighbours(g: Graph, v: NodeId): set<NodeId> {
    set n | n in g && n != v && v !in g[n]
  }

  /** Nodes with an open slot that v is not linked to. */
  function OpenNodes(g: Graph, v: NodeId, limit: nat): set<NodeId> {
    set n | n in NonNeighbours(g, v) && Degree(g, n) < limit
  }

  /** Nodes without an open slot that v is not linked to. */
  function FullNodes(g: Graph, v: NodeId, limit: nat): set<NodeId> {
    set n | n in NonNeighbours(g, v) && Degree(g, n) >= limit
  }

  /** What the trim may keep: everything, or `limit` of the neighbours when there are more. */
  ghost predicate TrimChoice(g: Graph, v: NodeId, limit: nat, kept: set<NodeId>) {
    kept <= Nbrs(g, v) && |kept| == (if Degree(g, v) > limit then limit else Degree(g, v))
  }

  function Trimmed(g: Graph, v: NodeId, limit: nat, kept: set<NodeId>): Graph {
    if Degree(g, v) > limit then Updated(g, v, kept) else g
  }

  /** What the second phase may add: as many open nodes as there are, but no more than are missing. */
  ghost predicate LinkChoice(g: Graph, v: NodeId, limit: nat, added: set<NodeId>) {
    var open := OpenNodes(g, v, limit);
    var missing := limit - Degree(g, v);
    added <= open && |added| == (if missing <= 0 then 0 else if missing <= |open| then missing else |open|)
  }

  function Linked(g: Graph, v: NodeId, added: set<NodeId>): Graph {
    if added == {} then g else Updated(g, v, Nbrs(g, v) + added)
  }

  function AfterSplices(g: Graph, v: NodeId, s: seq<(NodeId, NodeId)>): Graph {
    if s == [] then g
    else
      var (n1, n2) := s[|s| - 1];
      Spliced(AfterSplices(g, v, s[..|s| - 1]), v, n1, n2)
  }

  function Ends(s: seq<(NodeId, NodeId)>): set<NodeId> {
    if s == [] then {} else Ends(s[..|s| - 1]) + {s[|s| - 1].0, s[|s| - 1].1}
  }

  /** One turn of the rewiring loop is possible on h with the given remaining targets. */
  ghost predicate LegalSplice(h: Graph, v: NodeId, limit: nat, targets: set<NodeId>, n1: NodeId, n2: NodeId) {
    Degree(h, v) + 1 < limit && n1 in targets && n2 in Nbrs(h, n1) && v !in Nbrs(h, n2)
  }

  ghost predicate LegalSplices(g: Graph, v: NodeId, limit: nat, targets: set<NodeId>, s: seq<(NodeId, NodeId)>) {
    s != [] ==>
      var q := s[..|s| - 1];
      && LegalSplices(g, v, limit, targets, q)
      && LegalSplice(AfterSplices(g, v, q), v, limit, targets - Ends(q), s[|s| - 1].0, s[|s| - 1].1)
  }

  /** The rewiring goes on until fewer than two slots are left or no target is. */
  ghost predicate SpliceChoice(g: Graph, v: NodeId, limit: nat, s: seq<(NodeId, NodeId)>) {
    && LegalSplices(g, v, limit, FullNodes(g, v, limit), s)
    && (Degree(AfterSplices(g, v, s), v) + 1 < limit ==> FullNodes(g, v, limit) - Ends(s) == {})
  }

  function BeforeSplices(g: Graph, v: NodeId, limit: nat, plan: Plan): Graph {
    Linked(Trimmed(g, v, limit, plan.kept), v, plan.added)
  }

  function Outcome(g: Graph, v: NodeId, limit: nat, plan: Plan): Graph {
    AfterSplices(BeforeSplices(g, v, limit, plan), v, plan.splices)
  }

  ghost predicate LegalPlan(g: Graph, v: NodeId, limit: nat, plan: Plan) {
    && v in g
    && TrimChoice(g, v, limit, plan.kept)
    && LinkChoice(Trimmed(g, v, limit, plan.kept), v, limit, plan.added)
    && SpliceChoice(BeforeSplices(g, v, limit, plan), v, limit, plan.splices)
  }

  /** The nodes reported after the rewiring, on top of those reported before it. */
  function AddSpliced(updated: set<NodeId>, v: NodeId, s: seq<(NodeId, NodeId)>): set<NodeId> {
    updated + Ends(s) + (if s != [] then {v} else {})
  }

  /** The nodes that the three phases report. */
  function Touched(g: Graph, v: NodeId, limit: nat, plan: Plan): set<NodeId> {
    var trimmed := if Degree(g, v) > limit then {v} else {};
    var linked := trimmed + plan.added + (if plan.added != {} then {v} else {});
    AddSpliced(linked, v, plan.splices)
  }

  /** Every reported node with its neighbours. */
  function Report(g: Graph, updated: set<NodeId>): map<NodeId, set<NodeId>> {
    map n | n in updated :: Nbrs(g, n)
  }

  /** The returned instructions. */
  function Instructions(g: Graph, v: NodeId, limit: nat, plan: Plan, force: bool): map<NodeId, set<NodeId>> {
    Report(Outcome(g, v, limit, plan), Touched(g, v, limit, plan) + (if force then {v} else {}))
  }

  // ----- single steps -----

  lemma NonNeighboursBySymmetry(g: Graph, v: NodeId)
    requires WellFormed(g)
    ensures NonNeighbours(g, v) == g.Keys - {v} - Nbrs(g, v)
  {
    forall n | n in g ensures v in g[n] <==> n in Nbrs(g, v) {
      assert v in Nbrs(g, n) <==> n in Nbrs(g, v);
    }
  }

  /** The rewiring loop never runs out of second ends: a full node has a neighbour that v lacks. */
  lemma SecondEndExists(g: Graph, v: NodeId, limit: nat, n1: NodeId) returns (n2: NodeId)
    requires WellFormed(g) && Degree(g, v) < limit
    requires n1 in NonNeighbours(g, v) && Degree(g, n1) >= limit
    ensures n2 in Nbrs(g, n1) && v !in Nbrs(g, n2)
  {
    if Nbrs(g, n1) <= Nbrs(g, v) {
      SubsetSize(Nbrs(g, n1), Nbrs(g, v));
      assert false;
    }
    n2 :| n2 in Nbrs(g, n1) && n2 !in Nbrs(g, v);
    assert v !in Nbrs(g, n2);
  }

  /** One splice: two new links for v, no change in any other degree. */
  ghost predicate OneSplice(g: Graph, v: NodeId, n1: NodeId, n2: NodeId, g': Graph) {
    && g'.Keys == g.Keys
    && Nbrs(g', v) == Nbrs(g, v) + {n1, n2} && Degree(g', v) == Degree(g, v) + 2
    && (forall n :: n != v ==> Degree(g', n) == Degree(g, n))
    && (forall n :: n != v && n != n1 && n != n2 ==> Nbrs(g', n) == Nbrs(g, n))
    && NonNeighbours(g', v) == NonNeighbours(g, v) - {n1, n2}
  }

  lemma SpliceStep(g: Graph, v: NodeId, n1: NodeId, n2: NodeId)
    requires WellFormed(g) && v in g
    requires n1 in NonNeighbours(g, v) && n2 in Nbrs(g, n1) && v !in Nbrs(g, n2)
    ensures WellFormed(Spliced(g, v, n1, n2)) && OneSplice(g, v, n1, n2, Spliced(g, v, n1, n2))
    ensures n1 != n2 && n2 != v && n2 in g && n1 !in Nbrs(g, v) && n2 !in Nbrs(g, v)
  {
    var g' := Spliced(g, v, n1, n2);
    SplicedWellFormed(g, v, n1, n2);
    assert v !in Nbrs(g, n1);
    assert n1 in Nbrs(g, n2) && n1 != n2 && n2 in g;
    assert n1 !in Nbrs(g, v) && n2 !in Nbrs(g, v);
    assert Nbrs(g', n1) == Nbrs(g, n1) - {n2} + {v};
    assert Nbrs(g', n2) == Nbrs(g, n2) - {n1} + {v};
    NonNeighboursBySymmetry(g, v);
    NonNeighboursBySymmetry(g', v);
  }

  /** A splice turns the broken link into a detour over v. */
  lemma SpliceKeepsLinks(g: Graph, v: NodeId, n1: NodeId, n2: NodeId)
    requires WellFormed(g) && v in g
    requires n1 in NonNeighbours(g, v) && n2 in Nbrs(g, n1) && v !in Nbrs(g, n2)
    ensures KeepsLinks(g, Spliced(g, v, n1, n2))
  {
    var g' := Spliced(g, v, n1, n2);
    SpliceStep(g, v, n1, n2);
    JoinedEdge(g', n1, v);
    JoinedEdge(g', v, n2);
    JoinedTrans(g', n1, v, n2);
    JoinedEdge(g', n2, v);
    JoinedEdge(g', v, n1);
    JoinedTrans(g', n2, v, n1);
    forall a, b | b in Nbrs(g, a) && b in g ensures Joined(g', a, b) {
      if !((a == n1 && b == n2) || (a == n2 && b == n1)) {
        assert b in Nbrs(g', a);
        JoinedEdge(g', a, b);
      }
    }
  }

  // ----- the whole rewiring loop -----

  /** What the rewiring loop leaves of g, and what it changes, after the splices s. */
  ghost predicate SpliceEffect(g: Graph, v: NodeId, limit: nat, s: seq<(NodeId, NodeId)>, h: Graph) {
    && h.Keys == g.Keys
    && Nbrs(h, v) == Nbrs(g, v) + Ends(s)
    && Degree(h, v) == Degree(g, v) + 2 * |s|
    && (s != [] ==> Degree(h, v) <= limit)
    && (forall n :: n != v ==> Degree(h, n) == Degree(g, n))
    && (forall n :: n != v && n !in Ends(s) ==> Nbrs(h, n) == Nbrs(g, n))
    && NonNeighbours(h, v) == NonNeighbours(g, v) - Ends(s)
    && Ends(s) <= NonNeighbours(g, v)
  }

  /** One more splice, on top of those in q. */
  lemma SpliceEffectExtends(g: Graph, v: NodeId, limit: nat, q: seq<(NodeId, NodeId)>, h: Graph, n1: NodeId, n2: NodeId)
    requires v in g && SpliceEffect(g, v, limit, q, h) && Degree(h, v) + 1 < limit
    requires OneSplice(h, v, n1, n2, Spliced(h, v, n1, n2)) && {n1, n2} <= NonNeighbours(h, v)
    ensures SpliceEffect(g, v, limit, q + [(n1, n2)], Spliced(h, v, n1, n2))
  {
    var s := q + [(n1, n2)];
    assert s[..|s| - 1] == q;
    assert Ends(s) == Ends(q) + {n1, n2};
  }

  lemma SpliceEffectStep(g: Graph, v: NodeId, limit: nat, q: seq<(NodeId, NodeId)>, h: Graph, n1: NodeId, n2: NodeId)
    requires v in g && WellFormed(h) && SpliceEffect(g, v, limit, q, h)
    requires LegalSplice(h, v, limit, FullNodes(g, v, limit) - Ends(q), n1, n2)
    ensures WellFormed(Spliced(h, v, n1, n2)) && SpliceEffect(g, v, limit, q + [(n1, n2)], Spliced(h, v, n1, n2))
  {
    assert n1 in NonNeighbours(h, v);
    SpliceStep(h, v, n1, n2);
    NonNeighboursBySymmetry(h, v);
    SpliceEffectExtends(g, v, limit, q, h, n1, n2);
  }

  lemma {:induction false} SplicesEffect(g: Graph, v: NodeId, limit: nat, s: seq<(NodeId, NodeId)>)
    requires WellFormed(g) && v in g
    requires LegalSplices(g, v, limit, FullNodes(g, v, limit), s)
    ensures WellFormed(AfterSplices(g, v, s)) && SpliceEffect(g, v, limit, s, AfterSplices(g, v, s))
  {
    if s == [] {
    } else {
      var q := s[..|s| - 1];
      SplicesEffect(g, v, limit, q);
      SpliceEffectStep(g, v, limit, q, AfterSplices(g, v, q), s[|s| - 1].0, s[|s| - 1].1);
      LastSplit(s);
    }
  }

  /** Whenever the loop takes a target n1 up, n2candidates is not empty. */
  lemma RewireFindsSecondEnd(g: Graph, v: NodeId, limit: nat, s: seq<(NodeId, NodeId)>, n1: NodeId)
    returns (n2: NodeId)
    requires WellFormed(g) && v in g
    requires LegalSplices(g, v, limit, FullNodes(g, v, limit), s)
    requires Degree(AfterSplices(g, v, s), v) < limit && n1 in FullNodes(g, v, limit) - Ends(s)
    ensures var h := AfterSplices(g, v, s);
      && WellFormed(h) && n1 in h && n2 in Nbrs(h, n1) && v !in Nbrs(h, n2)
  {
    SplicesEffect(g, v, limit, s);
    n2 := SecondEndExists(AfterSplices(g, v, s), v, limit, n1);
  }

  lemma SplicesEndsDiffer(g: Graph, v: NodeId, limit: nat, s: seq<(NodeId, NodeId)>, n1: NodeId, n2: NodeId)
    requires WellFormed(g) && v in g
    requires LegalSplices(g, v, limit, FullNodes(g, v, limit), s)
    requires n1 in FullNodes(g, v, limit) - Ends(s)
    requires n2 in Nbrs(AfterSplices(g, v, s), n1) && v !in Nbrs(AfterSplices(g, v, s), n2)
    ensures {v, n1, n2} <= AfterSplices(g, v, s).Keys && v != n1 && n1 != n2 && n2 != v
  {
    SplicesEffect(g, v, limit, s);
    SpliceStep(AfterSplices(g, v, s), v, n1, n2);
  }

  /** One more turn of the rewiring loop. */
  lemma SplicesExtend(g: Graph, v: NodeId, limit: nat, targets: set<NodeId>, s: seq<(NodeId, NodeId)>, n1: NodeId,
                      n2: NodeId)
    requires LegalSplices(g, v, limit, targets, s)
    requires LegalSplice(AfterSplices(g, v, s), v, limit, targets - Ends(s), n1, n2)
    ensures LegalSplices(g, v, limit, targets, s + [(n1, n2)])
    ensures AfterSplices(g, v, s + [(n1, n2)]) == Spliced(AfterSplices(g, v, s), v, n1, n2)
    ensures Ends(s + [(n1, n2)]) == Ends(s) + {n1, n2}
    ensures forall u :: AddSpliced(u, v, s + [(n1, n2)]) == AddSpliced(u, v, s) + {v} + {n1} + {n2}
  {
    var t := s + [(n1, n2)];
    assert t[..|t| - 1] == s;
  }

  lemma {:induction false} SplicesKeepJoined(g: Graph, v: NodeId, limit: nat, s: seq<(NodeId, NodeId)>)
    requires WellFormed(g) && v in g
    requires LegalSplices(g, v, limit, FullNodes(g, v, limit), s)
    ensures forall a, b :: Joined(g, a, b) ==> Joined(AfterSplices(g, v, s), a, b)
  {
    if s == [] {
    } else {
      var q := s[..|s| - 1];
      SplicesEffect(g, v, limit, q);
      SplicesKeepJoined(g, v, limit, q);
      var h := AfterSplices(g, v, q);
      var (n1, n2) := s[|s| - 1];
      SpliceKeepsLinks(h, v, n1, n2);
      KeepsJoined(h, Spliced(h, v, n1, n2));
    }
  }

  // ----- trim and open slots -----

  /** The state after the trim: v is within the limit, and no node has gained a link. */
  ghost predicate TrimEffect(g: Graph, v: NodeId, limit: nat, kept: set<NodeId>, g1: Graph) {
    && g1.Keys == g.Keys
    && Nbrs(g1, v) == kept && Degree(g1, v) <= limit
    && (forall n :: Nbrs(g1, n) <= Nbrs(g, n) && Degree(g1, n) <= Degree(g, n))
  }

  lemma TrimStep(g: Graph, v: NodeId, limit: nat, kept: set<NodeId>)
    requires WellFormed(g) && v in g && TrimChoice(g, v, limit, kept)
    ensures WellFormed(Trimmed(g, v, limit, kept)) && TrimEffect(g, v, limit, kept, Trimmed(g, v, limit, kept))
  {
    var g1 := Trimmed(g, v, limit, kept);
    if Degree(g, v) > limit {
      UpdatedWellFormed(g, v, kept);
      forall n | n in kept ensures n in g && n != v {
        assert n in Nbrs(g, v);
      }
      assert Nbrs(g1, v) == kept;
      forall n ensures Nbrs(g1, n) <= Nbrs(g, n) {
        if n in kept { assert n in Nbrs(g, v); assert v in Nbrs(g, n); }
      }
    } else {
      SubsetSize(kept, g[v]);
    }
    forall n ensures Degree(g1, n) <= Degree(g, n) {
      SubsetSize(Nbrs(g1, n), Nbrs(g, n));
    }
  }

  /** Linking v to nodes it was not linked to changes nothing else. */
  ghost predicate NewLinks(g: Graph, v: NodeId, added: set<NodeId>, g': Graph) {
    && g'.Keys == g.Keys
    && Nbrs(g', v) == Nbrs(g, v) + added && Degree(g', v) == Degree(g, v) + |added|
    && (forall n :: n in added ==> Nbrs(g', n) == Nbrs(g, n) + {v} && Degree(g', n) == Degree(g, n) + 1)
    && (forall n :: n != v && n !in added ==> Nbrs(g', n) == Nbrs(g, n))
    && NonNeighbours(g', v) == NonNeighbours(g, v) - added
  }

  lemma UpdateAddsLinks(g: Graph, v: NodeId, added: set<NodeId>)
    requires WellFormed(g) && v in g && added <= NonNeighbours(g, v)
    ensures WellFormed(Updated(g, v, Nbrs(g, v) + added)) && NewLinks(g, v, added, Updated(g, v, Nbrs(g, v) + added))
  {
    var reported := Nbrs(g, v) + added;
    var g' := Updated(g, v, reported);
    UpdatedWellFormed(g, v, reported);
    NonNeighboursBySymmetry(g, v);
    assert Nbrs(g, v) !! added;
    assert forall n :: n in Nbrs(g, v) ==> n in g && n != v;
    assert Nbrs(g', v) == reported;
    forall n | n in added ensures Nbrs(g', n) == Nbrs(g, n) + {v} && Degree(g', n) == Degree(g, n) + 1 {
      assert v !in Nbrs(g, n);
    }
    forall n | n != v && n !in added ensures Nbrs(g', n) == Nbrs(g, n) {
      assert v in Nbrs(g, n) <==> n in Nbrs(g, v);
    }
    NonNeighboursBySymmetry(g', v);
  }

  /** The state after the open slots are filled: if v still misses a link, all others are full. */
  ghost predicate LinkEffect(g1: Graph, v: NodeId, limit: nat, added: set<NodeId>, g2: Graph) {
    && g2.Keys == g1.Keys
    && Nbrs(g2, v) == Nbrs(g1, v) + added && Degree(g2, v) == Degree(g1, v) + |added| <= limit
    && added <= NonNeighbours(g1, v)
    && (forall n :: n in added ==> Nbrs(g2, n) == Nbrs(g1, n) + {v} && Degree(g2, n) == Degree(g1, n) + 1 <= limit)
    && (forall n :: n != v && n !in added ==> Nbrs(g2, n) == Nbrs(g1, n))
    && NonNeighbours(g2, v) == NonNeighbours(g1, v) - added
    && (Degree(g2, v) < limit ==> FullNodes(g2, v, limit) == NonNeighbours(g2, v))
  }

  lemma LinkedAddsLinks(g: Graph, v: NodeId, added: set<NodeId>)
    requires WellFormed(g) && v in g && added <= NonNeighbours(g, v)
    ensures WellFormed(Linked(g, v, added)) && NewLinks(g, v, added, Linked(g, v, added))
  {
    if added != {} {
      UpdateAddsLinks(g, v, added);
    }
  }

  /** If v still misses a link after linking to all open nodes it may, no open node is left. */
  lemma NoOpenNodeLeft(g1: Graph, v: NodeId, limit: nat, added: set<NodeId>, g2: Graph)
    requires LinkChoice(g1, v, limit, added) && NewLinks(g1, v, added, g2)
    requires Degree(g2, v) < limit
    ensures FullNodes(g2, v, limit) == NonNeighbours(g2, v)
  {
    var open := OpenNodes(g1, v, limit);
    SubsetSize(added, open);
    forall n | n in NonNeighbours(g2, v) ensures Degree(g2, n) >= limit {
      assert n in NonNeighbours(g1, v) && n !in open;
      assert Nbrs(g2, n) == Nbrs(g1, n);
    }
  }

  lemma LinksEffect(g1: Graph, v: NodeId, limit: nat, added: set<NodeId>)
    requires WellFormed(g1) && v in g1 && Degree(g1, v) <= limit
    requires LinkChoice(g1, v, limit, added)
    ensures WellFormed(Linked(g1, v, added)) && LinkEffect(g1, v, limit, added, Linked(g1, v, added))
  {
    LinkedAddsLinks(g1, v, added);
    if Degree(Linked(g1, v, added), v) < limit {
      NoOpenNodeLeft(g1, v, limit, added, Linked(g1, v, added));
    }
  }

  /** The effect of one whole call, collected from its three phases. */
  ghost predicate Effect(g: Graph, v: NodeId, limit: nat, plan: Plan, g1: Graph, g2: Graph, g': Graph) {
    && TrimEffect(g, v, limit, plan.kept, g1)
    && LinkEffect(g1, v, limit, plan.added, g2)
    && SpliceEffect(g2, v, limit, plan.splices, g')
  }

  lemma PlanEffect(g: Graph, v: NodeId, limit: nat, plan: Plan)
    requires WellFormed(g) && LegalPlan(g, v, limit, plan)
    ensures var g1 := Trimmed(g, v, limit, plan.kept); var g2 := BeforeSplices(g, v, limit, plan);
      Effect(g, v, limit, plan, g1, g2, Outcome(g, v, limit, plan))
  {
    TrimStep(g, v, limit, plan.kept);
    LinksEffect(Trimmed(g, v, limit, plan.kept), v, limit, plan.added);
    SplicesEffect(BeforeSplices(g, v, limit, plan), v, limit, plan.splices);
  }

  lemma PlanWellFormed(g: Graph, v: NodeId, limit: nat, plan: Plan)
    requires WellFormed(g) && LegalPlan(g, v, limit, plan)
    ensures WellFormed(BeforeSplices(g, v, limit, plan)) && WellFormed(Outcome(g, v, limit, plan))
  {
    TrimStep(g, v, limit, plan.kept);
    LinksEffect(Trimmed(g, v, limit, plan.kept), v, limit, plan.added);
    SplicesEffect(BeforeSplices(g, v, limit, plan), v, limit, plan.splices);
  }
}
