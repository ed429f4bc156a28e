/** Nodes come, go and are formed instructions for: degrees stay between their two bounds. */
module OverlayBalance {
  import opened Identifiers
  import opened Graphs
  import opened OverlayPlans
  import opened OverlayRuns

  ghost predicate WithinLimit(g: Graph, limit: nat) {
    forall n :: n in g ==> Degree(g, n) <= limit
  }

  /** Same nodes, all still within the limit, and none with fewer links. */
  ghost predicate NoneLoses(g: Graph, g': Graph, limit: nat) {
    && WellFormed(g') && g'.Keys == g.Keys && WithinLimit(g', limit)
    && forall n :: n in g ==> Degree(g, n) <= Degree(g', n)
  }

  lemma CallTakesNothing(g: Graph, v: NodeId, limit: nat, plan: Plan)
    requires WellFormed(g) && WithinLimit(g, limit) && LegalPlan(g, v, limit, plan)
    ensures NoneLoses(g, Outcome(g, v, limit, plan), limit)
    ensures Degree(Outcome(g, v, limit, plan), v) >= Min(limit - 1, |g| - 1)
  {
    PlanWellFormed(g, v, limit, plan);
    PlanGrows(g, v, limit, plan);
    JoinerSaturated(g, v, limit, plan);
  }

  lemma NoneLosesTwice(g: Graph, g1: Graph, g2: Graph, limit: nat)
    requires NoneLoses(g, g1, limit) && NoneLoses(g1, g2, limit)
    ensures NoneLoses(g, g2, limit)
  {
  }

  lemma SameNodeCount(g: Graph, h: Graph)
    requires h.Keys == g.Keys
    ensures |h| == |g|
  {
    assert |h| == |h.Keys| && |g| == |g.Keys|;
  }

  /** Every node that was called for has as many links as the bound asks for. */
  ghost predicate CalledReach(g: Graph, calls: seq<Call>, bound: int) {
    forall i :: 0 <= i < |calls| ==> Degree(g, calls[i].v) >= bound
  }

  lemma ReachMore(h: Graph, h': Graph, limit: nat, calls: seq<Call>, bound: int)
    requires calls != [] && NoneLoses(h, h', limit) && CalledReach(h, calls[..|calls| - 1], bound)
    requires Degree(h', calls[|calls| - 1].v) >= bound
    ensures CalledReach(h', calls, bound)
  {
    var q := calls[..|calls| - 1];
    forall i | 0 <= i < |calls| ensures Degree(h', calls[i].v) >= bound {
      if i < |q| {
        assert q[i] == calls[i] && Degree(h, q[i].v) <= Degree(h', q[i].v);
      }
    }
  }

  /** A node that a call was made for is saturated from then on. */
  lemma {:induction false} CallsSaturate(g: Graph, limit: nat, calls: seq<Call>)
    requires WellFormed(g) && WithinLimit(g, limit) && LegalCalls(g, limit, calls)
    ensures NoneLoses(g, AfterCalls(g, limit, calls), limit)
    ensures CalledReach(AfterCalls(g, limit, calls), calls, Min(limit - 1, |g| - 1))
  {
    if calls == [] {
    } else {
      var q, c := calls[..|calls| - 1], calls[|calls| - 1];
      CallsSaturate(g, limit, q);
      var h := AfterCalls(g, limit, q);
      SameNodeCount(g, h);
      CallTakesNothing(h, c.v, limit, c.plan);
      var h' := Outcome(h, c.v, limit, c.plan);
      NoneLosesTwice(g, h, h', limit);
      ReachMore(h, h', limit, calls, Min(limit - 1, |g| - 1));
    }
  }

  /** Who was no neighbour of the departed node keeps its degree; a former neighbour loses one link. */
  lemma LeftDegrees(g: Graph, v: NodeId, n: NodeId)
    requires WellFormed(g) && n in g && n != v
    ensures Degree(Left(g, v), n) == Degree(g, n) - if n in Nbrs(g, v) then 1 else 0
  {
    assert n in Nbrs(g, v) <==> v in Nbrs(g, n);
  }

  lemma LeftSize(g: Graph, v: NodeId)
    ensures |Left(g, v)| == if v in g then |g| - 1 else |g|
  {
    assert Left(g, v).Keys == g.Keys - {v} && |Left(g, v)| == |Left(g, v).Keys| && |g| == |g.Keys|;
  }

  /** Every former neighbour was called for. */
  ghost predicate AllCalled(calls: seq<Call>, nodes: set<NodeId>) {
    forall n :: n in nodes ==> exists i :: 0 <= i < |calls| && calls[i].v == n
  }

  lemma RecoveredBalanced(g: Graph, v: NodeId, limit: nat, calls: seq<Call>, h': Graph)
    requires WellFormed(g) && Balanced(g, limit) && AllCalled(calls, Nbrs(g, v)) && NoneLoses(Left(g, v), h', limit)
    requires CalledReach(h', calls, Min(limit - 1, |Left(g, v)| - 1))
    ensures Balanced(h', limit)
  {
    LeftSize(g, v);
    SameNodeCount(Left(g, v), h');
    forall n | n in h' ensures Min(limit - 1, |h'| - 1) <= Degree(h', n) <= limit {
      LeftDegrees(g, v, n);
      if n in Nbrs(g, v) {
        var i :| 0 <= i < |calls| && calls[i].v == n;
      }
    }
  }

  /** A node leaves, and calls are made that do not leave a former neighbour out. */
  lemma DepartureBalanced(g: Graph, v: NodeId, limit: nat, calls: seq<Call>)
    requires WellFormed(g) && Balanced(g, limit) && LegalCalls(Left(g, v), limit, calls) && AllCalled(calls, Nbrs(g, v))
    ensures WellFormed(AfterCalls(Left(g, v), limit, calls)) && Balanced(AfterCalls(Left(g, v), limit, calls), limit)
  {
    LeftWellFormed(g, v);
    forall n | n in Left(g, v) ensures Degree(Left(g, v), n) <= limit { LeftDegrees(g, v, n); }
    CallsSaturate(Left(g, v), limit, calls);
    RecoveredBalanced(g, v, limit, calls, AfterCalls(Left(g, v), limit, calls));
  }

  lemma CallBalanced(g: Graph, v: NodeId, limit: nat, plan: Plan)
    requires WellFormed(g) && Balanced(g, limit) && LegalPlan(g, v, limit, plan)
    ensures Balanced(Outcome(g, v, limit, plan), limit)
  {
    CallTakesNothing(g, v, limit, plan);
    SameNodeCount(g, Outcome(g, v, limit, plan));
  }

  // ----- runs -----

  /** A node joins, or leaves and its former neighbours are called for, or some node is called for. */
  datatype Change =
    | Joins(v: NodeId, plan: Plan)
    | Departs(v: NodeId, calls: seq<Call>)
    | CalledFor(v: NodeId, plan: Plan)

  function AfterChange(g: Graph, limit: nat, change: Change): Graph {
    match change
    case Joins(v, plan) => Outcome(Updated(g, v, {}), v, limit, plan)
    case Departs(v, calls) => AfterCalls(Left(g, v), limit, calls)
    case CalledFor(v, plan) => Outcome(g, v, limit, plan)
  }

  ghost predicate LegalChange(g: Graph, limit: nat, change: Change) {
    match change
    case Joins(v, plan) => v !in g && LegalPlan(Updated(g, v, {}), v, limit, plan)
    case Departs(v, calls) => LegalCalls(Left(g, v), limit, calls) && AllCalled(calls, Nbrs(g, v))
    case CalledFor(v, plan) => LegalPlan(g, v, limit, plan)
  }

  function AfterChanges(limit: nat, changes: seq<Change>): Graph {
    if changes == [] then map[]
    else AfterChange(AfterChanges(limit, changes[..|changes| - 1]), limit, changes[|changes| - 1])
  }

  ghost predicate LegalChanges(limit: nat, changes: seq<Change>) {
    changes != [] ==>
      var q := changes[..|changes| - 1];
      LegalChanges(limit, q) && LegalChange(AfterChanges(limit, q), limit, changes[|changes| - 1])
  }

  lemma ChangeBalanced(g: Graph, limit: nat, change: Change)
    requires WellFormed(g) && Balanced(g, limit) && LegalChange(g, limit, change)
    ensures WellFormed(AfterChange(g, limit, change)) && Balanced(AfterChange(g, limit, change), limit)
  {
    match change
    case Joins(v, plan) =>
      UpdatedWellFormed(g, v, {});
      PlanWellFormed(Updated(g, v, {}), v, limit, plan);
      JoinBalanced(g, v, limit, plan);
    case Departs(v, calls) => DepartureBalanced(g, v, limit, calls);
    case CalledFor(v, plan) =>
      PlanWellFormed(g, v, limit, plan);
      CallBalanced(g, v, limit, plan);
  }

  /** After any such run, all degrees lie between min(limit - 1, N - 1) and limit. */
  lemma {:induction false} ChangesKeepBalance(limit: nat, changes: seq<Change>)
    requires LegalChanges(limit, changes)
    ensures WellFormed(AfterChanges(limit, changes)) && Balanced(AfterChanges(limit, changes), limit)
  {
    if changes == [] {
    } else {
      ChangesKeepBalance(limit, changes[..|changes| - 1]);
      ChangeBalanced(AfterChanges(limit, changes[..|changes| - 1]), limit, changes[|changes| - 1]);
    }
  }
}
