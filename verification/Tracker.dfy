/** The tracker: one overlay per stream, driven by the statuses of nodes. src/logic/Tracker.ts. */
module Trackers {
  import opened Identifiers
  import opened Collections
  import opened Graphs
  import opened OverlayPlans
  import opened OverlayRuns
  import opened OverlayTopologies
  import opened InstructionCounters
  import opened TrackerSteps
  import opened TrackerLedger

  type Overlays = map<StreamKey, OverlayTopology>

  ghost predicate Separate(overlays: Overlays, limit: nat) {
    && (forall s :: s in overlays ==> overlays[s].maxNeighborsPerNode == limit)
    && (forall s, t :: s in overlays && t in overlays && s != t ==> overlays[s] != overlays[t])
  }

  /** The graphs of all overlays. */
  ghost function ViewsOf(overlays: Overlays): Views
    reads overlays.Values
  {
    map s | s in overlays :: overlays[s].nodes
  }

  class Tracker {
    const maxNeighborsPerNode: nat
    var overlayPerStream: Overlays
    const instructionCounter: InstructionCounter
    /** Everything handed to the tracker server for sending, in order. */
    var sent: seq<Instruction>

    ghost function State(): TrackerState
      reads this, instructionCounter, overlayPerStream.Values
    {
      TrackerState(ViewsOf(overlayPerStream), instructionCounter.counters, sent)
    }

    ghost predicate Valid()
      reads this, instructionCounter, overlayPerStream.Values
    {
      Separate(overlayPerStream, maxNeighborsPerNode) && Inv(State())
    }

    constructor (maxNeighborsPerNode: nat)
      ensures Valid() && State() == TrackerState(map[], map[], [])
    {
      this.maxNeighborsPerNode := maxNeighborsPerNode;
      overlayPerStream := map[];
      instructionCounter := new InstructionCounter();
      sent := [];
    }

    method SendInstruction(nodeId: NodeId, streamKey: StreamKey, newNeighbors: set<NodeId>)
      returns (ghost instruction: Instruction)
      modifies this`sent, instructionCounter
      ensures sent == old(sent) + [instruction]
      ensures instruction.nodeId == nodeId && instruction.streamKey == streamKey &&
              instruction.neighbors == newNeighbors
      ensures instruction.counter == Count(old(instructionCounter.counters), nodeId, streamKey) + 1
      ensures CountedUp(old(instructionCounter.counters), instructionCounter.counters, streamKey, {nodeId})
    {
      var counterValue := instructionCounter.SetOrIncrement(nodeId, streamKey);
      instruction := Instruction(nodeId, streamKey, newNeighbors, counterValue);
      sent := sent + [Instruction(nodeId, streamKey, newNeighbors, counterValue)];
    }

    /** Sends the instructions of one stream, each with its next counter value. */
    method SendInstructions(streamKey: StreamKey, instructions: map<NodeId, set<NodeId>>)
      returns (ghost batch: seq<Instruction>)
      modifies this`sent, instructionCounter
      ensures sent == old(sent) + batch
      ensures IsBatch(batch, streamKey, instructions, old(instructionCounter.counters))
      ensures CountedUp(old(instructionCounter.counters), instructionCounter.counters, streamKey, instructions.Keys)
    {
      ghost var c0, s0 := instructionCounter.counters, sent;
      batch := [];
      var todo := instructions.Keys;
      while todo != {}
        invariant todo <= instructions.Keys
        invariant SentSoFar(s0, sent, batch, streamKey, instructions, instructions.Keys - todo, c0,
                            instructionCounter.counters)
      {
        var nodeId :| nodeId in todo;
        ghost var sent1, c1 := sent, instructionCounter.counters;
        ghost var e := SendInstruction(nodeId, streamKey, instructions[nodeId]);
        SentOneMore(s0, sent1, batch, streamKey, instructions, instructions.Keys - todo, c0, c1, e,
                    instructionCounter.counters);
        Remaining(instructions.Keys, todo, nodeId);
        todo := todo - {nodeId};
        batch := batch + [e];
      }
      AllSent(s0, sent, batch, streamKey, instructions, c0, instructionCounter.counters);
    }

    method FormOnOverlay(node: NodeId, streamKey: StreamKey, forceGenerate: bool)
      returns (instructions: map<NodeId, set<NodeId>>, ghost plan: Plan)
      requires Valid() && streamKey in overlayPerStream
      modifies overlayPerStream[streamKey]
      ensures var g := old(State()).views[streamKey]; var g' := overlayPerStream[streamKey].nodes;
        && State().views == old(State()).views[streamKey := g']
        && (node !in g ==> instructions == map[] && g' == g)
        && (node in g ==>
              && LegalPlan(g, node, maxNeighborsPerNode, plan)
              && g' == Outcome(g, node, maxNeighborsPerNode, plan)
              && instructions == Instructions(g, node, maxNeighborsPerNode, plan, forceGenerate))
    {
      assert WellFormed(State().views[streamKey]);
      instructions, plan := overlayPerStream[streamKey].FormInstructions(node, forceGenerate);
    }

    /** formAndSendInstructions for one stream key. */
    method FormAndSendInstruction(node: NodeId, streamKey: StreamKey, forceGenerate: bool)
      returns (ghost plan: Plan, ghost batch: seq<Instruction>)
      requires Valid()
      modifies this`sent, instructionCounter, overlayPerStream.Values
      ensures Valid()
      ensures Formed(old(State()), State(), maxNeighborsPerNode, node, streamKey, forceGenerate, plan, batch)
    {
      plan, batch := Plan({}, {}, []), [];
      if streamKey in overlayPerStream {
        ghost var st := State();
        var instructions;
        instructions, plan := FormOnOverlay(node, streamKey, forceGenerate);
        batch := SendInstructions(streamKey, instructions);
        FormedInParts(st, State(), maxNeighborsPerNode, node, streamKey, forceGenerate, plan, batch,
                      instructions, overlayPerStream[streamKey].nodes);
      }
    }

    /** formAndSendInstructions for the source of a status, over all stream keys of the status. */
    method FormAndSendInstructions(node: NodeId, streamKeys: set<StreamKey>)
      returns (ghost plans: map<StreamKey, Plan>, ghost batch: seq<Instruction>)
      requires Valid()
      modifies this`sent, instructionCounter, overlayPerStream.Values
      ensures Valid() && FormedAll(old(State()), State(), maxNeighborsPerNode, node, plans, batch)
      ensures plans.Keys == Called(old(State()).views, node, streamKeys)
    {
      ghost var st := State();
      plans, batch := map[], [];
      FormedNothingYet(st, maxNeighborsPerNode, node);
      var todo := streamKeys;
      while todo != {}
        invariant todo <= streamKeys && Valid()
        invariant FormedAll(st, State(), maxNeighborsPerNode, node, plans, batch)
        invariant plans.Keys == Called(st.views, node, streamKeys - todo)
      {
        var streamKey :| streamKey in todo;
        plans, batch := FormAndSendOne(node, streamKey, st, streamKeys - todo, plans, batch);
        Remaining(streamKeys, todo, streamKey);
        todo := todo - {streamKey};
      }
    }

    method FormAndSendOne(node: NodeId, streamKey: StreamKey, ghost st: TrackerState, ghost done: set<StreamKey>,
                          ghost plans: map<StreamKey, Plan>, ghost batch: seq<Instruction>)
      returns (ghost plans': map<StreamKey, Plan>, ghost batch': seq<Instruction>)
      requires Valid() && streamKey !in done && plans.Keys == Called(st.views, node, done)
      requires FormedAll(st, State(), maxNeighborsPerNode, node, plans, batch)
      modifies this`sent, instructionCounter, overlayPerStream.Values
      ensures Valid() && FormedAll(st, State(), maxNeighborsPerNode, node, plans', batch')
      ensures plans'.Keys == Called(st.views, node, done + {streamKey})
    {
      ghost var st1 := State();
      ghost var plan, more := FormAndSendInstruction(node, streamKey, false);
      CalledMore(st.views, node, done, streamKey);
      plans' := FormedTurn(st, st1, State(), maxNeighborsPerNode, node, plans, batch, streamKey, plan, more);
      batch' := batch + more;
    }

    /** The node leaves the overlay and loses its counters, all of them. */
    method LeaveOverlay(streamKey: StreamKey, node: NodeId) returns (neighbors: set<NodeId>)
      requires Valid() && streamKey in overlayPerStream
      modifies instructionCounter, overlayPerStream[streamKey]
      ensures Valid() && Gone(old(State()), State(), node, streamKey)
      ensures neighbors == Nbrs(old(State()).views[streamKey], node)
    {
      ghost var st := State();
      assert WellFormed(st.views[streamKey]);
      neighbors := overlayPerStream[streamKey].Leave(node);
      instructionCounter.RemoveNode(node);
      assert State().views == st.views[streamKey := Left(st.views[streamKey], node)];
      GoneKeepsInv(st, State(), node, streamKey);
    }

    method RemoveOverlay(streamKey: StreamKey)
      requires Separate(overlayPerStream, maxNeighborsPerNode)
      modifies this`overlayPerStream, instructionCounter
      ensures overlayPerStream == old(overlayPerStream) - {streamKey} && Separate(overlayPerStream, maxNeighborsPerNode)
      ensures overlayPerStream.Values <= old(overlayPerStream.Values)
      ensures State().views == old(State()).views - {streamKey} && State().sent == old(State()).sent
      ensures forall m, t ::
        Count(State().counters, m, t) == if t == streamKey then 0 else Count(old(State()).counters, m, t)
    {
      instructionCounter.RemoveStream(streamKey);
      overlayPerStream := overlayPerStream - {streamKey};
    }

    method LeaveAndCheckEmptyOverlay(streamKey: StreamKey, node: NodeId) returns (ghost calls: seq<Call>)
      requires Valid() && streamKey in overlayPerStream
      modifies this`sent, this`overlayPerStream, instructionCounter, overlayPerStream.Values
      ensures Valid() && overlayPerStream.Values <= old(overlayPerStream.Values)
      ensures Departed(old(State()), State(), maxNeighborsPerNode, node, streamKey, calls)
    {
      calls := [];
      ghost var st := State();
      var neighbors := LeaveOverlay(streamKey, node);
      ghost var st1 := State();
      if overlayPerStream[streamKey].IsEmpty() {
        RemoveOverlay(streamKey);
        EmptiedLast(st, st1, State(), node, streamKey);
      } else {
        NeighborsRemain(st, st1, node, streamKey);
        calls := ReInstruct(streamKey, neighbors);
      }
    }

    /** Forced instructions for the former neighbours of a node that left. */
    method ReInstruct(streamKey: StreamKey, neighbors: set<NodeId>) returns (ghost calls: seq<Call>)
      requires Valid() && streamKey in overlayPerStream && neighbors <= overlayPerStream[streamKey].nodes.Keys
      modifies this`sent, instructionCounter, overlayPerStream.Values
      ensures Valid() && ReInstructed(old(State()), State(), maxNeighborsPerNode, streamKey, neighbors, calls)
    {
      ghost var st := State();
      calls := [];
      NothingReInstructed(st, maxNeighborsPerNode, streamKey);
      var todo := neighbors;
      while todo != {}
        invariant todo <= neighbors && Valid()
        invariant ReInstructed(st, State(), maxNeighborsPerNode, streamKey, neighbors - todo, calls)
      {
        var neighbor :| neighbor in todo;
        calls := ReInstructOne(streamKey, neighbor, st, neighbors - todo, calls);
        Remaining(neighbors, todo, neighbor);
        todo := todo - {neighbor};
      }
    }

    method ReInstructOne(streamKey: StreamKey, neighbor: NodeId, ghost st: TrackerState, ghost done: set<NodeId>,
                         ghost sofar: seq<Call>)
      returns (ghost calls: seq<Call>)
      requires Valid() && Inv(st) && ReInstructed(st, State(), maxNeighborsPerNode, streamKey, done, sofar)
      requires neighbor !in done && neighbor in st.views[streamKey]
      modifies this`sent, instructionCounter, overlayPerStream.Values
      ensures Valid() && ReInstructed(st, State(), maxNeighborsPerNode, streamKey, done + {neighbor}, calls)
    {
      ghost var st1 := State();
      ghost var plan, batch := FormAndSendInstruction(neighbor, streamKey, true);
      ReInstructedTurn(st, st1, State(), maxNeighborsPerNode, streamKey, done, sofar, neighbor, plan, batch);
      calls := sofar + [Call(neighbor, plan)];
    }

    /** The node leaves every overlay whose stream is not among `listed`. */
    method LeaveAllBut(node: NodeId, listed: set<StreamKey>) returns (ghost run: seq<Departure>)
      requires Valid()
      modifies this`sent, this`overlayPerStream, instructionCounter, overlayPerStream.Values
      ensures Valid() && overlayPerStream.Values <= old(overlayPerStream.Values)
      ensures Removed(old(State()), State(), node, old(overlayPerStream).Keys - listed)
      ensures LeftAll(old(State()), State(), maxNeighborsPerNode, node, old(overlayPerStream).Keys - listed, run)
    {
      ghost var st := State();
      var todo := overlayPerStream.Keys - listed;
      ghost var all := todo;
      run := [];
      NothingRemoved(st, node);
      LeftNothing(st, maxNeighborsPerNode, node);
      while todo != {}
        invariant todo <= all && Valid() && overlayPerStream.Values <= old(overlayPerStream.Values)
        invariant Removed(st, State(), node, all - todo) && all <= st.views.Keys
        invariant LeftAll(st, State(), maxNeighborsPerNode, node, all - todo, run)
      {
        var streamKey :| streamKey in todo;
        run := LeaveOneMore(node, streamKey, st, all - todo, run);
        Remaining(all, todo, streamKey);
        todo := todo - {streamKey};
      }
    }

    method LeaveOneMore(node: NodeId, streamKey: StreamKey, ghost st: TrackerState, ghost done: set<StreamKey>,
                        ghost run: seq<Departure>)
      returns (ghost run': seq<Departure>)
      requires LeftAll(st, State(), maxNeighborsPerNode, node, done, run)
      requires Valid() && Removed(st, State(), node, done) && streamKey !in done && streamKey in st.views
      modifies this`sent, this`overlayPerStream, instructionCounter, overlayPerStream.Values
      ensures Valid() && overlayPerStream.Values <= old(overlayPerStream.Values)
      ensures Removed(st, State(), node, done + {streamKey})
      ensures LeftAll(st, State(), maxNeighborsPerNode, node, done + {streamKey}, run')
    {
      ghost var st1 := State();
      assert streamKey in st1.views;
      ghost var calls := LeaveAndCheckEmptyOverlay(streamKey, node);
      DepartedRemoves(st1, State(), maxNeighborsPerNode, node, streamKey, calls);
      RemovedMore(st, st1, State(), node, done, streamKey);
      LeftOneMore(st, st1, State(), maxNeighborsPerNode, node, done, run, streamKey, calls);
      run' := run + [Departure(streamKey, calls, State())];
    }

    method CreateIfMissing(streamKey: StreamKey)
      requires Separate(overlayPerStream, maxNeighborsPerNode)
      modifies this`overlayPerStream
      ensures Separate(overlayPerStream, maxNeighborsPerNode)
      ensures State() == old(State()).(views := Created(old(State()).views, {streamKey}))
      ensures fresh(overlayPerStream.Values - old(overlayPerStream.Values))
    {
      if streamKey !in overlayPerStream {
        var overlay := new OverlayTopology(maxNeighborsPerNode);
        ghost var before := overlayPerStream;
        overlayPerStream := overlayPerStream[streamKey := overlay];
        assert forall s :: s in before ==> overlayPerStream[s] == before[s];
      }
      assert State().views == Created(old(State()).views, {streamKey});
    }

    method CreateNewOverlayTopologies(streamKeys: set<StreamKey>)
      requires Valid()
      modifies this`overlayPerStream
      ensures Valid() && State() == old(State()).(views := Created(old(State()).views, streamKeys))
      ensures MissingAdded(old(State()).views, State().views, streamKeys)
      ensures fresh(overlayPerStream.Values - old(overlayPerStream.Values))
    {
      ghost var st := State();
      CreateEach(streamKeys);
      CreatedInv(st, State(), streamKeys);
      CreatedAdds(st.views, streamKeys);
    }

    /** The loop of createNewOverlayTopologies. */
    method CreateEach(streamKeys: set<StreamKey>)
      requires Separate(overlayPerStream, maxNeighborsPerNode)
      modifies this`overlayPerStream
      ensures Separate(overlayPerStream, maxNeighborsPerNode)
      ensures State() == old(State()).(views := Created(old(State()).views, streamKeys))
      ensures fresh(overlayPerStream.Values - old(overlayPerStream.Values))
    {
      ghost var st := State();
      assert Created(st.views, {}) == st.views;
      var todo := streamKeys;
      while todo != {}
        invariant todo <= streamKeys && Separate(overlayPerStream, maxNeighborsPerNode)
        invariant State() == st.(views := Created(st.views, streamKeys - todo))
        invariant fresh(overlayPerStream.Values - old(overlayPerStream.Values))
      {
        var streamKey :| streamKey in todo;
        CreateIfMissing(streamKey);
        CreatedMore(st.views, streamKeys - todo, streamKey);
        Remaining(streamKeys, todo, streamKey);
        todo := todo - {streamKey};
      }
    }

    method UpdateOverlay(node: NodeId, streamKey: StreamKey, entry: StreamStatus)
      requires Separate(overlayPerStream, maxNeighborsPerNode) && streamKey in overlayPerStream
      modifies overlayPerStream[streamKey]
      ensures var st := old(State());
        State() == st.(views := st.views[streamKey :=
          Updated(st.views[streamKey], node, entry.inboundNodes + entry.outboundNodes)])
    {
      var neighbors := entry.inboundNodes + entry.outboundNodes;
      overlayPerStream[streamKey].Update(node, neighbors);
    }

    /** First half of updateNode: the accepted reports go into their overlays. */
    method UpdateOverlays(node: NodeId, filteredStreams: map<StreamKey, StreamStatus>)
      requires Valid() && filteredStreams.Keys <= overlayPerStream.Keys
      modifies overlayPerStream.Values
      ensures Valid() && State() == old(State()).(views := Reported(old(State()).views, node, filteredStreams))
      ensures ReportsGoIn(old(State()).views, State().views, node, filteredStreams)
    {
      ghost var st := State();
      ghost var done: map<StreamKey, StreamStatus> := map[];
      assert Reported(st.views, node, done) == st.views;
      var todo := filteredStreams.Keys;
      while todo != {}
        invariant todo <= filteredStreams.Keys && done.Keys == filteredStreams.Keys - todo
        invariant forall s :: s in done ==> done[s] == filteredStreams[s]
        invariant State() == st.(views := Reported(st.views, node, done))
      {
        var streamKey :| streamKey in todo;
        UpdateOverlay(node, streamKey, filteredStreams[streamKey]);
        ReportedMore(st.views, node, done, streamKey, filteredStreams[streamKey]);
        done := done[streamKey := filteredStreams[streamKey]];
        todo := todo - {streamKey};
      }
      assert done == filteredStreams;
      ReportedGoesIn(st.views, node, filteredStreams);
      ReportedInv(st, State(), node, filteredStreams);
    }

    method UpdateNode(node: NodeId, filteredStreams: map<StreamKey, StreamStatus>, allStreams: set<StreamKey>)
      returns (ghost st2: TrackerState, ghost run: seq<Departure>)
      requires Valid() && filteredStreams.Keys <= overlayPerStream.Keys
      modifies this`sent, this`overlayPerStream, instructionCounter, overlayPerStream.Values
      ensures Valid() && overlayPerStream.Values <= old(overlayPerStream.Values)
      ensures st2 == old(State()).(views := Reported(old(State()).views, node, filteredStreams))
      ensures Removed(st2, State(), node, st2.views.Keys - allStreams)
      ensures LeftAll(st2, State(), maxNeighborsPerNode, node, st2.views.Keys - allStreams, run)
    {
      UpdateOverlays(node, filteredStreams);
      st2 := State();
      assert st2.views.Keys == overlayPerStream.Keys;
      run := LeaveAllBut(node, allStreams);
    }

    method UpdateNodeOnStream(node: NodeId, streams: map<StreamKey, StreamStatus>) returns (ghost calls: seq<Call>)
      requires Valid() && streams.Keys <= overlayPerStream.Keys
      modifies this`sent, this`overlayPerStream, instructionCounter, overlayPerStream.Values
      ensures Valid() && overlayPerStream.Values <= old(overlayPerStream.Values)
      ensures UpdatedOne(old(State()), State(), maxNeighborsPerNode, node, streams, calls)
    {
      calls := [];
      if |streams| == 1 {
        var streamKey :| streamKey in streams;
        OnlyKey(streams, streamKey);
        var status := streams[streamKey];
        if status.counter == UNSUBSCRIBED {
          calls := LeaveAndCheckEmptyOverlay(streamKey, node);
        } else {
          assert streams == map[streamKey := status];
          UpdateOverlays(node, map[streamKey := status]);
        }
      }
    }

    /** First half of processNodeStatus: filter the status, and create the missing overlays. */
    method FilterAndCreate(status: Status, source: NodeId) returns (filteredStreams: map<StreamKey, StreamStatus>)
      requires Valid()
      modifies this`overlayPerStream, instructionCounter
      ensures Valid() && fresh(overlayPerStream.Values - old(overlayPerStream.Values))
      ensures filteredStreams == Filtered(old(State()).counters, source, status.streams)
      ensures filteredStreams.Keys <= status.streams.Keys <= overlayPerStream.Keys
      ensures State().views == Created(old(State()).views, status.streams.Keys)
      ensures SameCounts(State().counters, old(State()).counters) && State().sent == old(State()).sent
    {
      ghost var st := State();
      filteredStreams := instructionCounter.FilterStatus(status.streams, source);
      CountersSame(st, State());
      CreateNewOverlayTopologies(status.streams.Keys);
      assert State().views.Keys == overlayPerStream.Keys;
    }

    method ProcessFullStatus(status: Status, source: NodeId) returns (ghost h: Handling)
      requires Valid() && !status.singleStream
      modifies this`sent, this`overlayPerStream, instructionCounter, overlayPerStream.Values
      ensures Valid() && fresh(overlayPerStream.Values - old(overlayPerStream.Values))
      ensures HandledFull(old(State()), State(), maxNeighborsPerNode, source, status, h) && Inv(h.left)
      ensures Removed(h.reported, h.left, source, h.reported.views.Keys - status.streams.Keys)
    {
      var filteredStreams := FilterAndCreate(status, source);
      ghost var st2, run := UpdateNode(source, filteredStreams, status.streams.Keys);
      ghost var st3 := State();
      ghost var plans, batch := FormAndSendInstructions(source, status.streams.Keys);
      h := Full(st2, run, st3, plans, batch);
    }

    method ProcessSingleStreamStatus(status: Status, source: NodeId) returns (ghost h: Handling)
      requires Valid() && status.singleStream
      modifies this`sent, this`overlayPerStream, instructionCounter, overlayPerStream.Values
      ensures Valid() && fresh(overlayPerStream.Values - old(overlayPerStream.Values))
      ensures HandledSingle(old(State()), State(), maxNeighborsPerNode, source, status, h) && Inv(h.created) &&
              Inv(h.updated)
    {
      var filteredStreams := FilterAndCreate(status, source);
      ghost var st1 := State();
      ghost var calls := UpdateNodeOnStream(source, filteredStreams);
      ghost var st2 := State();
      ghost var plans, batch := FormAndSendInstructions(source, status.streams.Keys);
      h := Single(st1, calls, st2, plans, batch);
    }

    /**
     * A status arrives: its phases follow each other as they should. The members of every overlay
     * are then those that the ledger says; each listed overlay is the outcome of a call for the source on
     * the graph that has taken over its report; and a stale report of a settled source is without effect.
     */
    method ProcessNodeStatus(status: Status, source: NodeId) returns (ghost h: Handling)
      requires Valid()
      modifies this`sent, this`overlayPerStream, instructionCounter, overlayPerStream.Values
      ensures Valid() && fresh(overlayPerStream.Values - old(overlayPerStream.Values))
      ensures if status.singleStream then HandledSingle(old(State()), State(), maxNeighborsPerNode, source, status, h)
              else HandledFull(old(State()), State(), maxNeighborsPerNode, source, status, h)
      ensures Members(State().views) ==
              StatusMembers(Members(old(State()).views), old(State()).counters, source, status)
      ensures forall e ::
        NoneEmpty(Members(old(State()).views)) && WellFormedStatus(status) && Announces(status, source, e) ==>
        Members(State().views) == LedgerStep(Members(old(State()).views), e)
      ensures if status.singleStream then OneTaken(old(State()), h.updated.views, source, status)
              else AllTaken(old(State()), h.left.views, source, status)
      ensures ListedFormed(if status.singleStream then h.updated.views else h.left.views, State().views,
                           maxNeighborsPerNode, source, status.streams.Keys, h.plans)
      ensures StaleAndSettled(old(State()), source, maxNeighborsPerNode, status) ==> Same(old(State()), State())
    {
      ghost var st := State();
      StatusIsEveryAnnounced(st, source, status);
      if status.singleStream {
        h := ProcessSingleStreamStatus(status, source);
        SingleStatusEffect(st, State(), maxNeighborsPerNode, source, status, h);
      } else {
        h := ProcessFullStatus(status, source);
        FullStatusEffect(st, State(), maxNeighborsPerNode, source, status, h);
      }
    }

    /** The node departs from every overlay. */
    method OnNodeDisconnected(node: NodeId) returns (ghost run: seq<Departure>)
      requires Valid()
      modifies this`sent, this`overlayPerStream, instructionCounter, overlayPerStream.Values
      ensures Valid() && Members(State().views) == LedgerStep(Members(old(State()).views), Disconnect(node))
      ensures LeftAll(old(State()), State(), maxNeighborsPerNode, node, old(State()).views.Keys, run)
    {
      ghost var st, keys := State(), overlayPerStream.Keys - {};
      assert keys == st.views.Keys == Members(st.views).Keys;
      run := LeaveAllBut(node, {});
      DisconnectLeaves(Members(st.views), node);
    }
  }
}
