/** What every call of formInstructions guarantees, whatever its random choices are. */
module OverlayTheorems {
  import opened Identifiers
  import opened Collections
  import opened Graphs
  import opened OverlayPlans

  /** Node v ends within the limit, and lacks at most one link or is linked to every other node. */
  lemma Saturation(g: Graph, v: NodeId, limit: nat, plan: Plan)
    requires WellFormed(g) && LegalPlan(g, v, limit, plan)
    ensures var g' := Outcome(g, v, limit, plan);
      && Degree(g', v) <= limit
      && (Degree(g', v) + 1 >= limit || forall n :: n in g' && n != v ==> n in Nbrs(g', v))
  {
    PlanEffect(g, v, limit, plan);
    PlanWellFormed(g, v, limit, plan);
    var g' := Outcome(g, v, limit, plan);
    if Degree(g', v) + 1 < limit {
      NonNeighboursBySymmetry(g', v);
      assert NonNeighbours(g', v) == {};
    }
  }

  lemma DegreeBound(g: Graph, v: NodeId, limit: nat, plan: Plan, n: NodeId)
    requires WellFormed(g) && LegalPlan(g, v, limit, plan)
    ensures var d := Degree(Outcome(g, v, limit, plan), n);
      d <= Degree(g, n) || d <= limit
  {
    PlanEffect(g, v, limit, plan);
    var g1, g2 := Trimmed(g, v, limit, plan.kept), BeforeSplices(g, v, limit, plan);
    if n == v {
      Saturation(g, v, limit, plan);
    } else if n !in plan.added {
      assert Nbrs(g2, n) == Nbrs(g1, n);
    }
  }

  /** If v is not over the limit, no two nodes that a path joined are separated. */
  lemma KeepsConnectivity(g: Graph, v: NodeId, limit: nat, plan: Plan)
    requires WellFormed(g) && LegalPlan(g, v, limit, plan) && Degree(g, v) <= limit
    ensures forall a, b :: Joined(g, a, b) ==> Joined(Outcome(g, v, limit, plan), a, b)
  {
    PlanEffect(g, v, limit, plan);
    PlanWellFormed(g, v, limit, plan);
    var g2 := BeforeSplices(g, v, limit, plan);
    LinksKeep(g, v, limit, plan.added, g2);
    KeepsJoined(g, g2);
    SplicesKeepJoined(g2, v, limit, plan.splices);
  }

  lemma LinksKeep(g: Graph, v: NodeId, limit: nat, added: set<NodeId>, g2: Graph)
    requires WellFormed(g) && LinkEffect(g, v, limit, added, g2)
    ensures KeepsLinks(g, g2)
  {
    forall a, b | b in Nbrs(g, a) && b in g ensures Joined(g2, a, b) {
      assert a in g && b in Nbrs(g2, a);
      JoinedEdge(g2, a, b);
    }
  }

  /** Over the limit the promise fails: a dropped neighbour with no other link is left on its own. */
  lemma TrimIsolatesLeaf(g: Graph, v: NodeId, limit: nat, plan: Plan, leaf: NodeId)
    requires WellFormed(g) && LegalPlan(g, v, limit, plan) && Degree(g, v) > limit
    requires leaf in Nbrs(g, v) - plan.kept && Nbrs(g, leaf) == {v}
    ensures Joined(g, v, leaf) && !Joined(Outcome(g, v, limit, plan), v, leaf)
  {
    assert leaf in g && v in g && leaf != v;
    JoinedEdge(g, v, leaf);
    PlanWellFormed(g, v, limit, plan);
    OverLimitOnlyTrims(g, v, limit, plan);
    var g' := Outcome(g, v, limit, plan);
    assert Nbrs(g', leaf) <= {v} && v !in Nbrs(g', leaf) by {
      assert v in Nbrs(g', leaf) ==> leaf in Nbrs(g', v);
    }
    if Joined(g', v, leaf) {
      var p :| Path(g', p) && p[0] == v && p[|p| - 1] == leaf;
      var others := g'.Keys - {leaf};
      forall a, b | a in others && b in Nbrs(g', a) ensures b in others {
        assert a in Nbrs(g', b);
      }
      ClosedSetHoldsPath(g', others, p);
    }
  }

  /** The trim brings v to the limit exactly, so that the other two phases do nothing. */
  lemma OverLimitOnlyTrims(g: Graph, v: NodeId, limit: nat, plan: Plan)
    requires WellFormed(g) && LegalPlan(g, v, limit, plan) && Degree(g, v) > limit
    ensures plan.added == {} && plan.splices == []
    ensures Outcome(g, v, limit, plan) == Updated(g, v, plan.kept)
    ensures TrimEffect(g, v, limit, plan.kept, Outcome(g, v, limit, plan))
  {
    PlanEffect(g, v, limit, plan);
  }

  // ----- links between other nodes -----

  /** No link between others comes, and one that goes is a detour over v, to two nodes that v was not linked to. */
  ghost predicate OthersDetoured(g: Graph, v: NodeId, g': Graph) {
    forall a, b :: a != v && b != v ==>
      && (b in Nbrs(g', a) ==> b in Nbrs(g, a))
      && (b in Nbrs(g, a) && b !in Nbrs(g', a) ==> {a, b} <= Nbrs(g', v) - Nbrs(g, v))
  }

  lemma SpliceDetours(h: Graph, v: NodeId, n1: NodeId, n2: NodeId)
    requires WellFormed(h) && v in h && n1 in NonNeighbours(h, v) && n2 in Nbrs(h, n1) && v !in Nbrs(h, n2)
    ensures OthersDetoured(h, v, Spliced(h, v, n1, n2)) && Nbrs(h, v) <= Nbrs(Spliced(h, v, n1, n2), v)
  {
    SpliceStep(h, v, n1, n2);
  }

  lemma DetouredTwice(g: Graph, v: NodeId, h: Graph, h': Graph)
    requires OthersDetoured(g, v, h) && OthersDetoured(h, v, h')
    requires Nbrs(g, v) <= Nbrs(h, v) <= Nbrs(h', v)
    ensures OthersDetoured(g, v, h')
  {
  }

  lemma {:induction false} SplicesDetour(g: Graph, v: NodeId, limit: nat, s: seq<(NodeId, NodeId)>)
    requires WellFormed(g) && v in g && LegalSplices(g, v, limit, FullNodes(g, v, limit), s)
    ensures OthersDetoured(g, v, AfterSplices(g, v, s)) && Nbrs(g, v) <= Nbrs(AfterSplices(g, v, s), v)
  {
    if s == [] {
    } else {
      var q := s[..|s| - 1];
      var (n1, n2) := s[|s| - 1];
      SplicesDetour(g, v, limit, q);
      SplicesEffect(g, v, limit, q);
      var h := AfterSplices(g, v, q);
      SpliceDetours(h, v, n1, n2);
      DetouredTwice(g, v, h, Spliced(h, v, n1, n2));
    }
  }

  lemma PhasesDetour(g: Graph, v: NodeId, g2: Graph, g': Graph)
    requires OthersDetoured(g2, v, g')
    requires forall a, b :: a != v && b != v ==> (b in Nbrs(g2, a) <==> b in Nbrs(g, a))
    requires Nbrs(g, v) <= Nbrs(g2, v) || g' == g2
    ensures OthersDetoured(g, v, g')
  {
  }

  lemma BeforeSplicesOthers(g: Graph, v: NodeId, limit: nat, plan: Plan, a: NodeId, b: NodeId)
    requires v in g && a != v && b != v
    ensures b in Nbrs(BeforeSplices(g, v, limit, plan), a) <==> b in Nbrs(g, a)
  {
    var g1 := Trimmed(g, v, limit, plan.kept);
    UpdatedIff(g, v, plan.kept, g1);
    UpdatedIff(g1, v, Nbrs(g1, v) + plan.added, BeforeSplices(g, v, limit, plan));
  }

  /** A call breaks a link between two other nodes only to put the node between them, and makes none. */
  lemma LinksBetweenOthers(g: Graph, v: NodeId, limit: nat, plan: Plan)
    requires WellFormed(g) && LegalPlan(g, v, limit, plan)
    ensures OthersDetoured(g, v, Outcome(g, v, limit, plan))
  {
    var g2 := BeforeSplices(g, v, limit, plan);
    PlanWellFormed(g, v, limit, plan);
    PlanEffect(g, v, limit, plan);
    SplicesDetour(g2, v, limit, plan.splices);
    forall a, b | a != v && b != v ensures b in Nbrs(g2, a) <==> b in Nbrs(g, a) {
      BeforeSplicesOthers(g, v, limit, plan, a, b);
    }
    if Degree(g, v) > limit {
      OverLimitOnlyTrims(g, v, limit, plan);
    }
    PhasesDetour(g, v, g2, Outcome(g, v, limit, plan));
  }

  // ----- exactness of the returned instructions -----

  function Changed(g: Graph, g': Graph): set<NodeId> {
    set n | n in g && Nbrs(g', n) != Nbrs(g, n)
  }

  /** g' is g, with exactly the nodes in u newly linked to v and all others but v untouched. */
  ghost predicate Gain(g: Graph, v: NodeId, u: set<NodeId>, g': Graph) {
    && g'.Keys == g.Keys
    && u <= NonNeighbours(g, v) && Nbrs(g', v) == Nbrs(g, v) + u
    && (forall n :: n in u ==> v in Nbrs(g', n))
    && (forall n :: n != v && n !in u ==> Nbrs(g', n) == Nbrs(g, n))
  }

  lemma PhasesGain(g: Graph, v: NodeId, limit: nat, added: set<NodeId>, g2: Graph, s: seq<(NodeId, NodeId)>, g': Graph)
    requires LinkEffect(g, v, limit, added, g2) && SpliceEffect(g2, v, limit, s, g') && Symmetric(g')
    ensures Gain(g, v, added + Ends(s), g')
  {
    var u := added + Ends(s);
    assert u <= NonNeighbours(g, v);
    assert Nbrs(g', v) == Nbrs(g, v) + u;
    forall n | n in u ensures v in Nbrs(g', n) {
      assert n in Nbrs(g', v);
    }
    forall n | n != v && n !in u ensures Nbrs(g', n) == Nbrs(g, n) {
      assert Nbrs(g2, n) == Nbrs(g, n);
    }
  }

  lemma PlanGains(g: Graph, v: NodeId, limit: nat, plan: Plan)
    requires WellFormed(g) && LegalPlan(g, v, limit, plan) && Degree(g, v) <= limit
    ensures Gain(g, v, plan.added + Ends(plan.splices), Outcome(g, v, limit, plan))
  {
    PlanEffect(g, v, limit, plan);
    PlanWellFormed(g, v, limit, plan);
    PhasesGain(g, v, limit, plan.added, BeforeSplices(g, v, limit, plan), plan.splices, Outcome(g, v, limit, plan));
  }

  lemma TouchedWithinLimit(g: Graph, v: NodeId, limit: nat, plan: Plan)
    requires Degree(g, v) <= limit
    ensures Touched(g, v, limit, plan) ==
            (var u := plan.added + Ends(plan.splices); if u == {} then {} else u + {v})
  {
    if plan.splices != [] { assert plan.splices[|plan.splices| - 1].0 in Ends(plan.splices); }
  }

  lemma GainChanges(g: Graph, v: NodeId, u: set<NodeId>, g': Graph)
    requires WellFormed(g) && v in g && Gain(g, v, u, g')
    ensures Changed(g, g') == if u == {} then {} else u + {v}
  {
    NonNeighboursBySymmetry(g, v);
    forall n | n in u ensures n in Changed(g, g') && v in Changed(g, g') {
      assert n in NonNeighbours(g, v) && n !in Nbrs(g, v) && n in Nbrs(g', v);
      assert v !in Nbrs(g, n);
    }
    if u == {} { assert Nbrs(g', v) == Nbrs(g, v); }
  }

  /** A trim drops some node's link without reporting that node. */
  lemma TrimUnderReports(g: Graph, v: NodeId, limit: nat, plan: Plan) returns (dropped: NodeId)
    requires WellFormed(g) && LegalPlan(g, v, limit, plan) && Degree(g, v) > limit
    ensures dropped in Changed(g, Outcome(g, v, limit, plan)) && dropped !in Touched(g, v, limit, plan) + {v}
  {
    OverLimitOnlyTrims(g, v, limit, plan);
    PlanWellFormed(g, v, limit, plan);
    var g' := Outcome(g, v, limit, plan);
    SubsetSize(plan.kept, Nbrs(g, v));
    assert Nbrs(g, v) - plan.kept != {};
    dropped :| dropped in Nbrs(g, v) - plan.kept;
    assert v in Nbrs(g, dropped) && dropped != v;
    assert v !in Nbrs(g', dropped) by { assert v in Nbrs(g', dropped) ==> dropped in Nbrs(g', v); }
  }

  lemma ReportInjective(g: Graph, a: set<NodeId>, b: set<NodeId>)
    ensures Report(g, a) == Report(g, b) <==> a == b
  {
    assert Report(g, a).Keys == a && Report(g, b).Keys == b;
  }

  /**
   * An unforced call reports exactly the nodes whose neighbours changed, each with its new
   * neighbours, if and only if v was not over the limit: the trim leaves out the nodes it drops.
   */
  lemma InstructionsExact(g: Graph, v: NodeId, limit: nat, plan: Plan)
    requires WellFormed(g) && LegalPlan(g, v, limit, plan)
    ensures var g' := Outcome(g, v, limit, plan);
      Instructions(g, v, limit, plan, false) == Report(g', Changed(g, g')) <==> Degree(g, v) <= limit
  {
    var g' := Outcome(g, v, limit, plan);
    var touched := Touched(g, v, limit, plan);
    assert touched + {} == touched;
    ReportInjective(g', touched, Changed(g, g'));
    if Degree(g, v) <= limit {
      PlanGains(g, v, limit, plan);
      TouchedWithinLimit(g, v, limit, plan);
      GainChanges(g, v, plan.added + Ends(plan.splices), g');
    } else {
      var dropped := TrimUnderReports(g, v, limit, plan);
    }
  }

  /** The same of a forced call, which reports the node itself besides, and leaves out no other for it. */
  lemma ForcedInstructionsExact(g: Graph, v: NodeId, limit: nat, plan: Plan)
    requires WellFormed(g) && LegalPlan(g, v, limit, plan)
    ensures var g' := Outcome(g, v, limit, plan);
      Instructions(g, v, limit, plan, true) == Report(g', Changed(g, g') + {v}) <==> Degree(g, v) <= limit
  {
    var g' := Outcome(g, v, limit, plan);
    var touched := Touched(g, v, limit, plan);
    ReportInjective(g', touched + {v}, Changed(g, g') + {v});
    if Degree(g, v) <= limit {
      PlanGains(g, v, limit, plan);
      TouchedWithinLimit(g, v, limit, plan);
      GainChanges(g, v, plan.added + Ends(plan.splices), g');
    } else {
      var dropped := TrimUnderReports(g, v, limit, plan);
    }
  }

  /** The nodes that are told something are those whose neighbours have changed, and v if it is a forced call. */
  ghost predicate TellsExactly(g: Graph, v: NodeId, force: bool, g': Graph, told: map<NodeId, set<NodeId>>) {
    forall n :: n in told <==> n in g && (Nbrs(g', n) != Nbrs(g, n) || (force && n == v))
  }

  lemma ReportTells(g: Graph, v: NodeId, force: bool, g': Graph, told: map<NodeId, set<NodeId>>)
    requires v in g && told == Report(g', if force then Changed(g, g') + {v} else Changed(g, g'))
    ensures TellsExactly(g, v, force, g', told)
  {
  }

  lemma InstructionsTellExactly(g: Graph, v: NodeId, limit: nat, plan: Plan, force: bool)
    requires WellFormed(g) && LegalPlan(g, v, limit, plan) && Degree(g, v) <= limit
    ensures TellsExactly(g, v, force, Outcome(g, v, limit, plan), Instructions(g, v, limit, plan, force))
  {
    if force {
      ForcedInstructionsExact(g, v, limit, plan);
    } else {
      InstructionsExact(g, v, limit, plan);
    }
    ReportTells(g, v, force, Outcome(g, v, limit, plan), Instructions(g, v, limit, plan, force));
  }

  /** Every node in an answer is told its neighbours; v is in a forced one, and nobody is left out within the limit. */
  ghost predicate Tells(g: Graph, v: NodeId, limit: nat, force: bool, g': Graph, told: map<NodeId, set<NodeId>>) {
    && (forall n :: n in told ==> told[n] == Nbrs(g', n))
    && (force ==> v in told)
    && (Degree(g, v) <= limit ==> TellsExactly(g, v, force, g', told))
  }

  lemma ReportOf(g: Graph, v: NodeId, limit: nat, force: bool, g': Graph, who: set<NodeId>,
                 told: map<NodeId, set<NodeId>>)
    requires told == Report(g', who) && (force ==> v in who)
    requires Degree(g, v) <= limit ==> TellsExactly(g, v, force, g', told)
    ensures Tells(g, v, limit, force, g', told)
  {
  }

  lemma InstructionsTell(g: Graph, v: NodeId, limit: nat, plan: Plan, force: bool)
    requires WellFormed(g) && LegalPlan(g, v, limit, plan)
    ensures Tells(g, v, limit, force, Outcome(g, v, limit, plan), Instructions(g, v, limit, plan, force))
  {
    if Degree(g, v) <= limit {
      InstructionsTellExactly(g, v, limit, plan, force);
    }
    var who := Touched(g, v, limit, plan) + if force then {v} else {};
    ReportOf(g, v, limit, force, Outcome(g, v, limit, plan), who, Instructions(g, v, limit, plan, force));
  }

  // ----- idempotence -----

  /** Node v has nothing to gain and nothing to drop. */
  ghost predicate Settled(g: Graph, v: NodeId, limit: nat) {
    && Degree(g, v) <= limit
    && (Degree(g, v) < limit ==> OpenNodes(g, v, limit) == {})
    && (Degree(g, v) + 1 < limit ==> NonNeighbours(g, v) == {})
  }

  lemma SplicesSettle(g2: Graph, v: NodeId, limit: nat, s: seq<(NodeId, NodeId)>, g': Graph)
    requires SpliceEffect(g2, v, limit, s, g') && Degree(g2, v) <= limit
    requires Degree(g2, v) < limit ==> FullNodes(g2, v, limit) == NonNeighbours(g2, v)
    requires Degree(g', v) + 1 < limit ==> FullNodes(g2, v, limit) - Ends(s) == {}
    ensures Settled(g', v, limit)
  {
    if Degree(g', v) < limit {
      forall n | n in NonNeighbours(g', v) ensures Degree(g', n) >= limit {
        assert n in FullNodes(g2, v, limit);
      }
    }
  }

  lemma OutcomeSettled(g: Graph, v: NodeId, limit: nat, plan: Plan)
    requires WellFormed(g) && LegalPlan(g, v, limit, plan)
    ensures Settled(Outcome(g, v, limit, plan), v, limit)
  {
    PlanEffect(g, v, limit, plan);
    SplicesSettle(BeforeSplices(g, v, limit, plan), v, limit, plan.splices, Outcome(g, v, limit, plan));
  }

  /** An unforced call is without effect and returns {} exactly when v is settled. */
  lemma NothingToDoIffSettled(g: Graph, v: NodeId, limit: nat, plan: Plan)
    requires WellFormed(g) && LegalPlan(g, v, limit, plan)
    ensures Instructions(g, v, limit, plan, false) == map[] <==> Settled(g, v, limit)
    ensures Settled(g, v, limit) ==> Outcome(g, v, limit, plan) == g
  {
    PlanEffect(g, v, limit, plan);
    var g' := Outcome(g, v, limit, plan);
    if Settled(g, v, limit) {
      SettledPlanIsEmpty(g, v, limit, plan);
      assert Touched(g, v, limit, plan) == {};
    } else if Touched(g, v, limit, plan) == {} {
      EmptyPlan(g, v, limit, plan);
      OutcomeSettled(g, v, limit, plan);
    } else {
      var n :| n in Touched(g, v, limit, plan);
      assert n in Instructions(g, v, limit, plan, false);
    }
  }

  lemma EmptyPlan(g: Graph, v: NodeId, limit: nat, plan: Plan)
    requires Touched(g, v, limit, plan) == {}
    ensures Degree(g, v) <= limit && plan.added == {} && plan.splices == [] && Outcome(g, v, limit, plan) == g
  {
    assert v !in Touched(g, v, limit, plan);
  }

  lemma SettledPlanIsEmpty(g: Graph, v: NodeId, limit: nat, plan: Plan)
    requires WellFormed(g) && LegalPlan(g, v, limit, plan) && Settled(g, v, limit)
    ensures plan.added == {} && plan.splices == [] && Outcome(g, v, limit, plan) == g
  {
    PlanEffect(g, v, limit, plan);
    assert plan.added == {};
    if plan.splices != [] {
      FirstSplice(g, v, limit, FullNodes(g, v, limit), plan.splices);
      assert false;
    }
  }

  /** The loop has a first turn, on the graph it starts from. */
  lemma {:induction false} FirstSplice(g: Graph, v: NodeId, limit: nat, targets: set<NodeId>, s: seq<(NodeId, NodeId)>)
    requires LegalSplices(g, v, limit, targets, s) && s != []
    ensures Degree(g, v) + 1 < limit && targets != {}
  {
    var q := s[..|s| - 1];
    if q != [] {
      FirstSplice(g, v, limit, targets, q);
    } else {
      assert s[0].0 in targets - Ends(q);
    }
  }

  /** A second unforced call right after a first one returns {} and changes nothing. */
  lemma Idempotence(g: Graph, v: NodeId, limit: nat, plan: Plan, again: Plan)
    requires WellFormed(g) && LegalPlan(g, v, limit, plan)
    requires LegalPlan(Outcome(g, v, limit, plan), v, limit, again)
    ensures var g' := Outcome(g, v, limit, plan);
      Outcome(g', v, limit, again) == g' && Instructions(g', v, limit, again, false) == map[]
  {
    PlanWellFormed(g, v, limit, plan);
    OutcomeSettled(g, v, limit, plan);
    NothingToDoIffSettled(Outcome(g, v, limit, plan), v, limit, again);
  }
}
