/** The streams a node takes part in: src/logic/StreamManager.ts. */
module StreamManagers {
  import opened Identifiers
  import opened Numbers
  import opened GapLists
  import opened Detectors
  import opened Messages
  import opened NodeSteps

  type DetectorMap = map<DetectorKey, DuplicateMessageDetector>

  ghost predicate SeparateDetectors(detectors: DetectorMap) {
    && (forall k :: k in detectors ==> detectors[k].maxNumberOfGaps == MAX_NUMBER_OF_GAPS)
    && (forall j, k :: j in detectors && k in detectors && j != k ==> detectors[j] != detectors[k])
  }

  ghost function GapsOf(detectors: DetectorMap): map<DetectorKey, seq<Gap>>
    reads detectors.Values
  {
    map k | k in detectors :: detectors[k].gaps
  }

  ghost predicate AllValid(gaps: map<DetectorKey, seq<Gap>>) {
    forall k :: k in gaps ==> Reachable(gaps[k], MAX_NUMBER_OF_GAPS)
  }

  lemma StillValid(gaps: map<DetectorKey, seq<Gap>>, key: DetectorKey, row: seq<Gap>)
    requires AllValid(gaps) && Reachable(row, MAX_NUMBER_OF_GAPS)
    ensures AllValid(gaps[key := row])
  {
  }

  lemma NewRowValid(gaps: map<DetectorKey, seq<Gap>>, key: DetectorKey)
    requires AllValid(gaps)
    ensures AllValid(gaps[key := GapsFor(gaps, key)])
  {
  }

  lemma RowTwice(gaps: map<DetectorKey, seq<Gap>>, key: DetectorKey, first: seq<Gap>, second: seq<Gap>)
    ensures gaps[key := first][key := second] == gaps[key := second]
  {
  }

  class StreamManager {
    var streams: map<StreamKey, StreamState>
    /** The detectors of all streams in one map. */
    var detectors: DetectorMap

    ghost predicate Valid()
      reads this, detectors.Values
    {
      SeparateDetectors(detectors) && AllValid(GapsOf(detectors))
    }

    constructor ()
      ensures Valid() && streams == map[] && detectors == map[]
    {
      streams, detectors := map[], map[];
    }

    method SetUpStream(streamKey: StreamKey)
      requires streamKey !in streams
      modifies this`streams
      ensures streams == SetUp(old(streams), streamKey) == old(streams)[streamKey := StreamState({}, {}, 0)]
    {
      streams := streams[streamKey := StreamState({}, {}, 0)];
    }

    /** Each chain of each stream has its own detector, made when its first message arrives. */
    method DetectorFor(key: DetectorKey) returns (detector: DuplicateMessageDetector)
      requires Valid()
      modifies this`detectors
      ensures Valid() && key in detectors && detector == detectors[key]
      ensures fresh(detectors.Values - old(detectors.Values))
      ensures GapsOf(detectors) == old(GapsOf(detectors))[key := GapsFor(old(GapsOf(detectors)), key)]
    {
      ghost var before := detectors;
      if key !in detectors {
        detector := new DuplicateMessageDetector(MAX_NUMBER_OF_GAPS);
        detectors := detectors[key := detector];
        assert forall k :: k in before ==> detectors[k] == before[k];
      }
      detector := detectors[key];
      NewRowValid(old(GapsOf(detectors)), key);
      assert GapsOf(detectors) == old(GapsOf(detectors))[key := GapsFor(old(GapsOf(detectors)), key)];
    }

    method AskDetector(key: DetectorKey, message: StreamMessage) returns (verdict: Verdict)
      requires Valid() && key in detectors
      modifies detectors[key]
      ensures Valid()
      ensures var before := old(GapsOf(detectors));
        var marked := Mark(before[key], MAX_NUMBER_OF_GAPS, message.previous, message.id.Number());
        verdict == marked.verdict && GapsOf(detectors) == before[key := marked.gaps]
    {
      ghost var before := GapsOf(detectors);
      assert before[key] == detectors[key].gaps;
      verdict := detectors[key].MarkAndCheck(message.previous, message.id.Number());
      StillValid(before, key, detectors[key].gaps);
      assert GapsOf(detectors) == before[key := detectors[key].gaps];
    }

    method MarkNumbersAndCheckThatIsNotDuplicate(message: StreamMessage) returns (verdict: Verdict)
      requires Valid() && message.id.streamKey in streams
      modifies this`detectors, detectors.Values
      ensures Valid() && fresh(detectors.Values - old(detectors.Values))
      ensures var before, id := old(GapsOf(detectors)), message.id;
        var key := DetectorKey(id.streamKey, id.chain);
        var number := NumberPair(id.timestamp, id.sequenceNumber);
        var marked := Mark(GapsFor(before, key), MAX_NUMBER_OF_GAPS, message.previous, number);
        verdict == marked.verdict && GapsOf(detectors) == before[key := marked.gaps]
    {
      var key := KeyOf(message.id);
      ghost var before := GapsOf(detectors);
      var _ := DetectorFor(key);
      verdict := AskDetector(key, message);
      RowTwice(before, key, GapsFor(before, key), Judged(before, message).gaps);
    }

    method UpdateCounter(streamKey: StreamKey, counter: int)
      requires streamKey in streams
      modifies this`streams
      ensures streams == old(streams)[streamKey := old(streams)[streamKey].(counter := counter)]
    {
      streams := streams[streamKey := streams[streamKey].(counter := counter)];
    }

    method AddInboundNode(streamKey: StreamKey, node: NodeId)
      requires streamKey in streams
      modifies this`streams
      ensures streams == old(streams)[streamKey :=
        old(streams)[streamKey].(inboundNodes := old(streams)[streamKey].inboundNodes + {node})]
    {
      streams := streams[streamKey := streams[streamKey].(inboundNodes := streams[streamKey].inboundNodes + {node})];
    }

    method AddOutboundNode(streamKey: StreamKey, node: NodeId)
      requires streamKey in streams
      modifies this`streams
      ensures streams == old(streams)[streamKey :=
        old(streams)[streamKey].(outboundNodes := old(streams)[streamKey].outboundNodes + {node})]
    {
      streams := streams[streamKey := streams[streamKey].(outboundNodes := streams[streamKey].outboundNodes + {node})];
    }

    method RemoveNodeFromStream(streamKey: StreamKey, node: NodeId)
      requires streamKey in streams
      modifies this`streams
      ensures streams == WithoutNode(old(streams), streamKey, node)
      ensures OnlyWithoutIn(old(streams), streams, streamKey, node)
    {
      var state := streams[streamKey];
      streams := streams[streamKey :=
        state.(inboundNodes := state.inboundNodes - {node}, outboundNodes := state.outboundNodes - {node})];
    }

    /** Returns the streams that the node was in. */
    method RemoveNodeFromAllStreams(node: NodeId) returns (affected: set<StreamKey>)
      modifies this`streams
      ensures streams == map s | s in old(streams) :: WithoutNode(old(streams), s, node)[s]
      ensures OnlyWithout(old(streams), streams, node)
      ensures affected == set s | s in old(streams) &&
        (node in old(streams)[s].inboundNodes || node in old(streams)[s].outboundNodes)
    {
      ghost var before := streams;
      var todo := streams.Keys;
      affected := {};
      while todo != {}
        invariant todo <= before.Keys == streams.Keys
        invariant forall s :: s in before ==>
          streams[s] == if s in todo then before[s] else WithoutNode(before, s, node)[s]
        invariant forall s :: s in affected <==>
          s in before && s !in todo && (node in before[s].inboundNodes || node in before[s].outboundNodes)
      {
        var s :| s in todo;
        if node in streams[s].inboundNodes || node in streams[s].outboundNodes {
          affected := affected + {s};
        }
        RemoveNodeFromStream(s, node);
        todo := todo - {s};
      }
    }

    method GetOutboundNodesForStream(streamKey: StreamKey) returns (nodes: set<NodeId>)
      requires streamKey in streams
      ensures nodes == streams[streamKey].outboundNodes
    {
      nodes := streams[streamKey].outboundNodes;
    }

    method GetAllNodesForStream(streamKey: StreamKey) returns (nodes: set<NodeId>)
      requires streamKey in streams
      ensures forall n :: n in nodes <==> n in streams[streamKey].inboundNodes || n in streams[streamKey].outboundNodes
    {
      nodes := streams[streamKey].inboundNodes + streams[streamKey].outboundNodes;
    }
  }
}
