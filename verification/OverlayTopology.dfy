/** The tracker's overlay of one stream: src/logic/OverlayTopology.ts. */
module OverlayTopologies {
  import opened Identifiers
  import opened Graphs
  import opened OverlayPlans
  import opened OverlayTheorems

  ghost predicate Distinct(s: seq<NodeId>) {
    forall i, j :: 0 <= i < j < |s| ==> s[i] != s[j]
  }

  /** shuffleArray: the elements in any order. */
  method Shuffle(s: set<NodeId>) returns (r: seq<NodeId>)
    ensures |r| == |s| && (forall n :: n in r <==> n in s)
    ensures Distinct(r)
  {
    r := [];
    var rest := s;
    while rest != {}
      invariant rest <= s && |r| + |rest| == |s|
      invariant forall n :: n in r <==> n in s && n !in rest
      invariant Distinct(r)
    {
      var n :| n in rest;
      r := r + [n];
      rest := rest - {n};
    }
  }

  /** pickRandomElement: any element. */
  method PickRandomElement(s: set<NodeId>) returns (n: NodeId)
    requires s != {}
    ensures n in s
  {
    n :| n in s;
  }

  lemma {:induction false} DistinctSize(r: seq<NodeId>)
    requires Distinct(r)
    ensures |set n | n in r| == |r|
  {
    if r == [] {
    } else {
      var q := r[..|r| - 1];
      DistinctSize(q);
      assert (set n | n in r) == (set n | n in q) + {r[|r| - 1]};
    }
  }

  /** The first k elements of a shuffled set, as slice(0, k) takes them. */
  method ShuffledPrefix(s: set<NodeId>, k: nat) returns (r: set<NodeId>)
    ensures r <= s && |r| == if k <= |s| then k else |s|
  {
    var shuffled := Shuffle(s);
    var prefix := if k <= |shuffled| then shuffled[..k] else shuffled;
    DistinctSize(prefix);
    r := set n | n in prefix;
  }

  /** filter((t) => t !== x) */
  function Without(s: seq<NodeId>, x: NodeId): (r: seq<NodeId>)
    ensures |r| <= |s| && (forall n :: n in r <==> n in s && n != x)
    ensures Distinct(s) ==> Distinct(r)
  {
    if s == [] then []
    else
      var q := Without(s[..|s| - 1], x);
      var last := s[|s| - 1];
      assert forall n :: n in s <==> n in s[..|s| - 1] || n == last;
      assert Distinct(s) ==> Distinct(s[..|s| - 1]) && last !in s[..|s| - 1];
      if last == x then q else q + [last]
  }

  /** What pop() leaves behind. */
  function AllButLast(s: seq<NodeId>): (r: seq<NodeId>)
    requires s != []
    ensures |r| == |s| - 1 && s[|s| - 1] in s
    ensures Distinct(s) ==> Distinct(r) && forall n :: n in r <==> n in s && n != s[|s| - 1]
  {
    assert forall n :: n in s ==> n in s[..|s| - 1] || n == s[|s| - 1];
    s[..|s| - 1]
  }

  lemma EndsExtend(targets: set<NodeId>, s: seq<(NodeId, NodeId)>, n1: NodeId, n2: NodeId)
    ensures targets - Ends(s + [(n1, n2)]) == targets - Ends(s) - {n1, n2}
  {
    assert (s + [(n1, n2)])[..|s|] == s;
  }

  lemma SplicedInSteps(g: Graph, v: NodeId, n1: NodeId, n2: NodeId)
    requires {v, n1, n2} <= g.Keys && v != n1 && n1 != n2 && n2 != v
    ensures
      g[n1 := g[n1] - {n2}][n2 := g[n2] - {n1}][n1 := g[n1] - {n2} + {v}][n2 := g[n2] - {n1} + {v}]
       [v := g[v] + {n1}][v := g[v] + {n1} + {n2}]
      == Spliced(g, v, n1, n2)
  {
    assert g[v] + {n1} + {n2} == g[v] + {n1, n2};
  }

  class OverlayTopology {
    const maxNeighborsPerNode: nat
    var nodes: Graph

    ghost predicate Valid()
      reads this
    {
      WellFormed(nodes)
    }

    constructor (maxNeighborsPerNode: nat)
      ensures Valid() && nodes == map[] && this.maxNeighborsPerNode == maxNeighborsPerNode
    {
      this.maxNeighborsPerNode := maxNeighborsPerNode;
      nodes := map[];
    }

    predicate IsEmpty()
      reads this
    {
      |nodes| == 0
    }

    function NumOfMissingNeighbors(nodeId: NodeId): int
      reads this
      requires nodeId in nodes
    {
      maxNeighborsPerNode - |nodes[nodeId]|
    }

    /** forEach over `targets`: add nodeId to their neighbours. */
    method AddToAll(targets: set<NodeId>, nodeId: NodeId)
      requires targets <= nodes.Keys
      modifies this`nodes
      ensures nodes == map n | n in old(nodes) :: if n in targets then old(nodes)[n] + {nodeId} else old(nodes)[n]
    {
      var todo := targets;
      while todo != {}
        invariant todo <= targets
        invariant nodes == map n | n in old(nodes) ::
          if n in targets - todo then old(nodes)[n] + {nodeId} else old(nodes)[n]
      {
        var n :| n in todo;
        nodes := nodes[n := nodes[n] + {nodeId}];
        todo := todo - {n};
      }
    }

    /** forEach over `targets`: delete nodeId from their neighbours. */
    method DeleteFromAll(targets: set<NodeId>, nodeId: NodeId)
      requires targets <= nodes.Keys
      modifies this`nodes
      ensures nodes == map n | n in old(nodes) :: if n in targets then old(nodes)[n] - {nodeId} else old(nodes)[n]
    {
      var todo := targets;
      while todo != {}
        invariant todo <= targets
        invariant nodes == map n | n in old(nodes) ::
          if n in targets - todo then old(nodes)[n] - {nodeId} else old(nodes)[n]
      {
        var n :| n in todo;
        nodes := nodes[n := nodes[n] - {nodeId}];
        todo := todo - {n};
      }
    }

    method Update(nodeId: NodeId, neighbors: set<NodeId>)
      modifies this`nodes
      ensures nodes == Updated(old(nodes), nodeId, neighbors)
      ensures nodes.Keys == old(nodes).Keys + {nodeId}
      ensures forall n :: n in nodes[nodeId] <==> n in neighbors && n in old(nodes) && n != nodeId
      ensures forall n :: n in old(nodes) && n != nodeId ==> (nodeId in nodes[n] <==> n in neighbors)
      ensures forall a, b :: a in old(nodes) && a != nodeId && b != nodeId ==> (b in nodes[a] <==> b in old(nodes)[a])
    {
      var knownNeighbors := set n | n in neighbors && n in nodes && n != nodeId;
      nodes := nodes[nodeId := knownNeighbors];
      AddToAll(knownNeighbors, nodeId);
      var others := set n | n in nodes && n !in nodes[nodeId];
      DeleteFromAll(others, nodeId);
      assert nodes.Keys == Updated(old(nodes), nodeId, neighbors).Keys;
      forall n | n in nodes ensures nodes[n] == Updated(old(nodes), nodeId, neighbors)[n] {}
    }

    method Leave(nodeId: NodeId) returns (neighbors: set<NodeId>)
      requires Valid()
      modifies this`nodes
      ensures neighbors == Nbrs(old(nodes), nodeId)
      ensures nodes == Left(old(nodes), nodeId)
      ensures nodes.Keys == old(nodes).Keys - {nodeId}
      ensures forall a, b :: a in nodes ==> (b in nodes[a] <==> b in old(nodes)[a] && b != nodeId)
      ensures Valid()
    {
      ghost var g := nodes;
      LeftWellFormed(g, nodeId);
      assert forall n :: n in Nbrs(g, nodeId) <==> nodeId in Nbrs(g, n);
      if nodeId in nodes {
        neighbors := nodes[nodeId];
        assert forall n :: n in neighbors ==> n in Nbrs(g, nodeId);
        DeleteFromAll(neighbors, nodeId);
        nodes := nodes - {nodeId};
        forall n | n in nodes ensures nodes[n] == g[n] - {nodeId} {
          assert n !in Nbrs(g, nodeId) ==> nodeId !in Nbrs(g, n);
        }
        assert nodes == Left(g, nodeId);
      } else {
        neighbors := {};
        forall n | n in g ensures g[n] == g[n] - {nodeId} {
          assert nodeId !in Nbrs(g, n);
        }
        assert nodes == Left(g, nodeId);
      }
    }

    /** First phase of formInstructions: drop random neighbours of a node that has too many. */
    method TrimExcess(nodeId: NodeId) returns (updatedNodes: set<NodeId>, ghost kept: set<NodeId>)
      requires Valid() && nodeId in nodes
      modifies this`nodes
      ensures Valid() && TrimChoice(old(nodes), nodeId, maxNeighborsPerNode, kept)
      ensures nodes == Trimmed(old(nodes), nodeId, maxNeighborsPerNode, kept)
      ensures updatedNodes == if Degree(old(nodes), nodeId) > maxNeighborsPerNode then {nodeId} else {}
    {
      updatedNodes, kept := {}, nodes[nodeId];
      var excessNeighbors := -NumOfMissingNeighbors(nodeId);
      if excessNeighbors > 0 {
        var reducedNeighbors := ShuffledPrefix(nodes[nodeId], maxNeighborsPerNode);
        UpdatedWellFormed(nodes, nodeId, reducedNeighbors);
        Update(nodeId, reducedNeighbors);
        updatedNodes := updatedNodes + {nodeId};
        kept := reducedNeighbors;
      }
    }

    /** Second phase of formInstructions: link to random nodes that have an open slot. */
    method FillOpenSlots(nodeId: NodeId, alreadyUpdated: set<NodeId>)
      returns (updatedNodes: set<NodeId>, ghost added: set<NodeId>)
      requires Valid() && nodeId in nodes
      modifies this`nodes
      ensures Valid() && LinkChoice(old(nodes), nodeId, maxNeighborsPerNode, added)
      ensures nodes == Linked(old(nodes), nodeId, added)
      ensures updatedNodes == alreadyUpdated + added + (if added != {} then {nodeId} else {})
    {
      updatedNodes, added := alreadyUpdated, {};
      if NumOfMissingNeighbors(nodeId) > 0 {
        var candidates := OpenNodes(nodes, nodeId, maxNeighborsPerNode);
        var neighborsToAdd := ShuffledPrefix(candidates, NumOfMissingNeighbors(nodeId));
        if |neighborsToAdd| > 0 {
          UpdatedWellFormed(nodes, nodeId, nodes[nodeId] + neighborsToAdd);
          Update(nodeId, nodes[nodeId] + neighborsToAdd);
          updatedNodes := updatedNodes + {nodeId} + neighborsToAdd;
        }
        added := neighborsToAdd;
      }
    }

    method SpliceLink(nodeId: NodeId, n1: NodeId, n2: NodeId)
      requires {nodeId, n1, n2} <= nodes.Keys && nodeId != n1 && n1 != n2 && n2 != nodeId
      modifies this`nodes
      ensures nodes == Spliced(old(nodes), nodeId, n1, n2)
    {
      SplicedInSteps(nodes, nodeId, n1, n2);
      nodes := nodes[n1 := nodes[n1] - {n2}];
      nodes := nodes[n2 := nodes[n2] - {n1}];
      nodes := nodes[n1 := nodes[n1] + {nodeId}];
      nodes := nodes[n2 := nodes[n2] + {nodeId}];
      nodes := nodes[nodeId := nodes[nodeId] + {n1}];
      nodes := nodes[nodeId := nodes[nodeId] + {n2}];
    }

    /**
     * One turn of the rewiring loop, after n1 was popped from the targets; the state is reached by
     * legal splices from g. The turn always finds a second end n2, so the guard never fails.
     */
    method Disconnect(nodeId: NodeId, n1: NodeId, targets: seq<NodeId>, ghost g: Graph, ghost s: seq<(NodeId, NodeId)>)
      returns (disconnectionTargets: seq<NodeId>, n2: NodeId)
      requires WellFormed(g) && nodeId in g && nodes == AfterSplices(g, nodeId, s)
      requires LegalSplices(g, nodeId, maxNeighborsPerNode, FullNodes(g, nodeId, maxNeighborsPerNode), s)
      requires Degree(nodes, nodeId) + 1 < maxNeighborsPerNode
      requires n1 in FullNodes(g, nodeId, maxNeighborsPerNode) - Ends(s) && Distinct(targets)
      modifies this`nodes
      ensures nodes == Spliced(old(nodes), nodeId, n1, n2) && nodes.Keys == old(nodes).Keys
      ensures n2 in Nbrs(old(nodes), n1) && nodeId !in Nbrs(old(nodes), n2)
      ensures forall n :: n in disconnectionTargets <==> n in targets && n != n2
      ensures Distinct(disconnectionTargets) && |disconnectionTargets| <= |targets|
    {
      disconnectionTargets, n2 := targets, n1;
      ghost var second := RewireFindsSecondEnd(g, nodeId, maxNeighborsPerNode, s, n1);
      var n2candidates := set n | n in nodes[n1] && nodeId !in Nbrs(nodes, n);
      assert second in n2candidates;
      if |n2candidates| > 0 {
        n2 := PickRandomElement(n2candidates);
        disconnectionTargets := Without(targets, n2);
        SplicesEndsDiffer(g, nodeId, maxNeighborsPerNode, s, n1, n2);
        SpliceLink(nodeId, n1, n2);
      }
    }

    /** Last phase of formInstructions: break links between full nodes and take both ends over. */
    method Rewire(nodeId: NodeId, alreadyUpdated: set<NodeId>)
      returns (updatedNodes: set<NodeId>, ghost splices: seq<(NodeId, NodeId)>)
      requires Valid() && nodeId in nodes
      modifies this`nodes
      ensures Valid() && SpliceChoice(old(nodes), nodeId, maxNeighborsPerNode, splices)
      ensures nodes == AfterSplices(old(nodes), nodeId, splices)
      ensures updatedNodes == AddSpliced(alreadyUpdated, nodeId, splices)
    {
      updatedNodes, splices := alreadyUpdated, [];
      ghost var g, limit := nodes, maxNeighborsPerNode;
      var candidates := FullNodes(nodes, nodeId, maxNeighborsPerNode);
      var disconnectionTargets := Shuffle(candidates);
      while NumOfMissingNeighbors(nodeId) > 1 && |disconnectionTargets| > 0
        invariant nodes.Keys == g.Keys && nodes == AfterSplices(g, nodeId, splices)
        invariant LegalSplices(g, nodeId, limit, candidates, splices)
        invariant forall n :: n in disconnectionTargets <==> n in candidates - Ends(splices)
        invariant Distinct(disconnectionTargets)
        invariant updatedNodes == AddSpliced(alreadyUpdated, nodeId, splices)
        decreases |disconnectionTargets|
      {
        var n1 := disconnectionTargets[|disconnectionTargets| - 1];
        disconnectionTargets := AllButLast(disconnectionTargets);
        var n2;
        disconnectionTargets, n2 := Disconnect(nodeId, n1, disconnectionTargets, g, splices);
        SplicesExtend(g, nodeId, limit, candidates, splices, n1, n2);
        EndsExtend(candidates, splices, n1, n2);
        updatedNodes := updatedNodes + {nodeId} + {n1} + {n2};
        splices := splices + [(n1, n2)];
      }
      SplicesEffect(g, nodeId, limit, splices);
    }

    /** The three phases, one after the other; plan is the record of the random choices. */
    method Form(nodeId: NodeId) returns (updatedNodes: set<NodeId>, ghost plan: Plan)
      requires Valid() && nodeId in nodes
      modifies this`nodes
      ensures Valid() && LegalPlan(old(nodes), nodeId, maxNeighborsPerNode, plan)
      ensures nodes == Outcome(old(nodes), nodeId, maxNeighborsPerNode, plan)
      ensures updatedNodes == Touched(old(nodes), nodeId, maxNeighborsPerNode, plan)
    {
      ghost var kept, added, splices;
      updatedNodes, kept := TrimExcess(nodeId);
      updatedNodes, added := FillOpenSlots(nodeId, updatedNodes);
      updatedNodes, splices := Rewire(nodeId, updatedNodes);
      plan := Plan(kept, added, splices);
    }

    /** formInstructions for a known node. */
    method FormForKnown(nodeId: NodeId, forceGenerate: bool)
      returns (instructions: map<NodeId, set<NodeId>>, ghost plan: Plan)
      requires Valid() && nodeId in nodes
      modifies this`nodes
      ensures Valid() && LegalPlan(old(nodes), nodeId, maxNeighborsPerNode, plan)
      ensures nodes == Outcome(old(nodes), nodeId, maxNeighborsPerNode, plan)
      ensures instructions == Instructions(old(nodes), nodeId, maxNeighborsPerNode, plan, forceGenerate)
    {
      var updatedNodes: set<NodeId>;
      updatedNodes, plan := Form(nodeId);
      if forceGenerate {
        updatedNodes := updatedNodes + {nodeId};
      }
      instructions := Report(nodes, updatedNodes);
    }

    /**
     * Returns {} for an unknown node; otherwise the new neighbours of every node the plan touched,
     * and of nodeId itself when forceGenerate is set. If nodeId was not over the limit, these are
     * exactly the nodes whose neighbours have changed, and nodeId.
     */
    method FormInstructions(nodeId: NodeId, forceGenerate: bool)
      returns (instructions: map<NodeId, set<NodeId>>, ghost plan: Plan)
      requires Valid()
      modifies this`nodes
      ensures Valid()
      ensures nodeId !in old(nodes) ==> instructions == map[] && nodes == old(nodes)
      ensures nodeId in old(nodes) ==>
        && LegalPlan(old(nodes), nodeId, maxNeighborsPerNode, plan)
        && nodes == Outcome(old(nodes), nodeId, maxNeighborsPerNode, plan)
        && instructions == Instructions(old(nodes), nodeId, maxNeighborsPerNode, plan, forceGenerate)
        && Tells(old(nodes), nodeId, maxNeighborsPerNode, forceGenerate, nodes, instructions)
    {
      plan := Plan({}, {}, []);
      if nodeId !in nodes {
        return map[], plan;
      }
      ghost var g := nodes;
      instructions, plan := FormForKnown(nodeId, forceGenerate);
      InstructionsTell(g, nodeId, maxNeighborsPerNode, plan, forceGenerate);
    }
  }
}
