/** Per node and stream, how many instructions were sent: src/logic/InstructionCounter.ts. */
module InstructionCounters {
  import opened Identifiers

  /** What a node reports about one stream; -1 announces that it unsubscribed. */
  datatype StreamStatus = StreamStatus(inboundNodes: set<NodeId>, outboundNodes: set<NodeId>, counter: int)

  type Counters = map<NodeId, map<StreamKey, int>>

  const UNSUBSCRIBED := -1

  /** An absent entry reads as 0: every reader first sets it so. */
  function Count(counters: Counters, n: NodeId, s: StreamKey): int {
    if n in counters && s in counters[n] then counters[n][s] else 0
  }

  /** A report counts unless it was sent before the node saw its latest instruction. */
  predicate UpToDate(counters: Counters, source: NodeId, s: StreamKey, entry: StreamStatus) {
    entry.counter >= Count(counters, source, s) || entry.counter == UNSUBSCRIBED
  }

  function Filtered(counters: Counters, source: NodeId, streams: map<StreamKey, StreamStatus>)
    : map<StreamKey, StreamStatus>
  {
    map s | s in streams && UpToDate(counters, source, s, streams[s]) :: streams[s]
  }

  ghost predicate SameCounts(a: Counters, b: Counters) {
    forall n, s :: Count(a, n, s) == Count(b, n, s)
  }

  class InstructionCounter {
    var counters: Counters

    constructor ()
      ensures counters == map[]
    {
      counters := map[];
    }

    method SetOrIncrement(nodeId: NodeId, streamKey: StreamKey) returns (value: int)
      modifies this`counters
      ensures value == Count(old(counters), nodeId, streamKey) + 1 == Count(counters, nodeId, streamKey)
      ensures forall n, s :: n != nodeId || s != streamKey ==> Count(counters, n, s) == Count(old(counters), n, s)
    {
      var current := GetAndSetIfNecessary(nodeId, streamKey);
      counters := counters[nodeId := counters[nodeId][streamKey := counters[nodeId][streamKey] + 1]];
      value := counters[nodeId][streamKey];
    }

    method FilterStatus(streams: map<StreamKey, StreamStatus>, source: NodeId)
      returns (filteredStreams: map<StreamKey, StreamStatus>)
      modifies this`counters
      ensures filteredStreams == Filtered(old(counters), source, streams)
      ensures forall s :: s in filteredStreams <==>
        s in streams && (streams[s].counter >= Count(old(counters), source, s) || streams[s].counter == -1)
      ensures forall s :: s in filteredStreams ==> filteredStreams[s] == streams[s]
      ensures SameCounts(counters, old(counters))
    {
      filteredStreams := map[];
      var todo := streams.Keys;
      while todo != {}
        invariant todo <= streams.Keys && SameCounts(counters, old(counters))
        invariant filteredStreams ==
          map s | s in streams.Keys - todo && UpToDate(old(counters), source, s, streams[s]) :: streams[s]
      {
        var streamKey :| streamKey in todo;
        todo := todo - {streamKey};
        var entry := streams[streamKey];
        var currentCounter := GetAndSetIfNecessary(source, streamKey);
        assert currentCounter == Count(old(counters), source, streamKey);
        if entry.counter >= currentCounter || entry.counter == UNSUBSCRIBED {
          filteredStreams := filteredStreams[streamKey := entry];
        }
      }
    }

    method RemoveNode(nodeId: NodeId)
      modifies this`counters
      ensures forall n, s :: Count(counters, n, s) == if n == nodeId then 0 else Count(old(counters), n, s)
    {
      counters := counters - {nodeId};
    }

    method RemoveStream(streamKey: StreamKey)
      modifies this`counters
      ensures forall n, s :: Count(counters, n, s) == if s == streamKey then 0 else Count(old(counters), n, s)
    {
      var todo := counters.Keys;
      while todo != {}
        invariant todo <= counters.Keys && counters.Keys == old(counters).Keys
        invariant forall n, s ::
          Count(counters, n, s) == if s == streamKey && n !in todo then 0 else Count(old(counters), n, s)
      {
        var nodeId :| nodeId in todo;
        todo := todo - {nodeId};
        counters := counters[nodeId := counters[nodeId] - {streamKey}];
      }
    }

    method GetAndSetIfNecessary(nodeId: NodeId, streamKey: StreamKey) returns (value: int)
      modifies this`counters
      ensures value == Count(old(counters), nodeId, streamKey)
      ensures nodeId in counters && streamKey in counters[nodeId] && SameCounts(counters, old(counters))
    {
      if nodeId !in counters {
        counters := counters[nodeId := map[]];
      }
      if streamKey !in counters[nodeId] {
        counters := counters[nodeId := counters[nodeId][streamKey := 0]];
      }
      value := counters[nodeId][streamKey];
    }
  }
}
