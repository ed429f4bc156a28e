/** The node's message flow: emit, buffer, propagate. src/logic/Node.ts. */
module Nodes {
  import opened Identifiers
  import opened Collections
  import opened Options
  import opened GapLists
  import opened Messages
  import opened MessageBuffers
  import opened NodeSteps
  import opened StreamManagers

  lemma KeptNodes(peers: StreamState, current: set<NodeId>, nodeIds: set<NodeId>)
    requires peers.inboundNodes <= current && peers.outboundNodes <= current
    ensures WithoutNodes(peers, current - nodeIds) ==
      peers.(inboundNodes := peers.inboundNodes * nodeIds, outboundNodes := peers.outboundNodes * nodeIds)
  {
  }

  lemma WithoutOneMore(streams: map<StreamKey, StreamState>, s: StreamKey, gone: set<NodeId>, n: NodeId)
    requires s in streams
    ensures WithoutNode(streams[s := WithoutNodes(streams[s], gone)], s, n) ==
      streams[s := WithoutNodes(streams[s], gone + {n})]
  {
    assert streams[s].inboundNodes - gone - {n} == streams[s].inboundNodes - (gone + {n});
    assert streams[s].outboundNodes - gone - {n} == streams[s].outboundNodes - (gone + {n});
  }

  lemma NothingBuffered(buffer: map<StreamKey, seq<Copy>>, s: StreamKey)
    ensures s !in buffer ==> buffer - {s} == buffer
  {
  }

  lemma FirstOfRest(copies: seq<Copy>, i: nat)
    requires i < |copies|
    ensures copies[i..] != [] && copies[i..][0] == copies[i] && copies[i..][1..] == copies[i + 1..]
  {
  }

  class Node {
    const streams: StreamManager
    const messageBuffer: MessageBuffer
    var seenButNotPropagatedSet: set<MessageId>
    /** Events emitted, with the sends that go with them, in order. */
    var events: seq<NodeEvent>
    ghost var lost: set<MessageId>
    var consecutiveDeliveryFailures: map<NodeId, nat>

    ghost function State(): NodeState
      reads this, streams, streams.detectors.Values, messageBuffer
    {
      NodeState(streams.streams, GapsOf(streams.detectors), seenButNotPropagatedSet, messageBuffer.buffer, lost,
                consecutiveDeliveryFailures, events)
    }

    ghost predicate Valid()
      reads this, streams, streams.detectors.Values, messageBuffer
    {
      streams.Valid() && messageBuffer.Valid() && messageBuffer.maxSize >= 2
    }

    constructor (bufferMaxSize: nat := 10000)
      requires bufferMaxSize >= 2
      ensures Valid() && State() == NodeState(map[], map[], {}, map[], {}, map[], [])
      ensures messageBuffer.maxSize == bufferMaxSize
    {
      streams := new StreamManager();
      messageBuffer := new MessageBuffer(bufferMaxSize);
      seenButNotPropagatedSet, events, lost, consecutiveDeliveryFailures := {}, [], {}, map[];
    }

    method SubscribeToStreamIfHaveNotYet(streamKey: StreamKey)
      requires Valid()
      modifies streams`streams
      ensures Valid() && State() == old(State()).(streams := SetUp(old(State()).streams, streamKey))
    {
      if streamKey !in streams.streams {
        streams.SetUpStream(streamKey);
      }
    }

    /** The message goes back to the buffer. */
    method PutBack(streamMessage: StreamMessage, source: Option<NodeId>)
      requires Valid()
      modifies this, messageBuffer
      ensures Valid() && State() == Held(old(State()), streamMessage, source, messageBuffer.maxSize)
      ensures var s, before := streamMessage.id.streamKey, old(messageBuffer.buffer);
        lost == old(lost) +
          if s in before && |before[s]| == messageBuffer.maxSize then {before[s][0].message.id} else {}
    {
      var streamKey := streamMessage.id.streamKey;
      seenButNotPropagatedSet := seenButNotPropagatedSet + {streamMessage.id};
      lost := lost + PushedOut(messageBuffer.buffer, messageBuffer.maxSize, streamKey);
      var ok := messageBuffer.Put(streamKey, Copy(streamMessage, source));
      assert ok;
    }

    method PropagateMessage(streamMessage: StreamMessage, source: Option<NodeId>)
      requires Valid() && streamMessage.id.streamKey in streams.streams
      modifies this, messageBuffer
      ensures Valid() && State() == Propagate(old(State()), streamMessage, source, messageBuffer.maxSize)
    {
      var outbound := streams.GetOutboundNodesForStream(streamMessage.id.streamKey);
      var subscribers := set n | n in outbound && Some(n) != source;
      assert subscribers == Subscribers(State().streams, streamMessage.id.streamKey, source);
      if subscribers == {} {
        PutBack(streamMessage, source);
      } else {
        seenButNotPropagatedSet := seenButNotPropagatedSet - {streamMessage.id};
        events := events + [Propagated(streamMessage.id, subscribers)];
      }
    }

    /** First half of onDataReceived: ask the duplicate detector of the message's chain. */
    method CheckDuplicate(streamMessage: StreamMessage) returns (verdict: Verdict)
      requires Valid()
      modifies streams, streams.detectors.Values
      ensures Valid() && fresh(streams.detectors.Values - old(streams.detectors.Values))
      ensures State() == Marking(old(State()), streamMessage)
      ensures verdict == Judged(old(State()).gaps, streamMessage).verdict
      ensures streamMessage.id.streamKey in streams.streams
    {
      SubscribeToStreamIfHaveNotYet(streamMessage.id.streamKey);
      verdict := streams.MarkNumbersAndCheckThatIsNotDuplicate(streamMessage);
    }

    method Emit(e: NodeEvent)
      requires Valid()
      modifies this`events
      ensures Valid() && State() == Logged(old(State()), e)
    {
      events := events + [e];
    }

    method OnDataReceived(streamMessage: StreamMessage, source: Option<NodeId>)
      requires Valid()
      modifies this, streams, streams.detectors.Values, messageBuffer
      ensures Valid() && fresh(streams.detectors.Values - old(streams.detectors.Values))
      ensures State() == OnData(old(State()), streamMessage, source, messageBuffer.maxSize)
    {
      var verdict := CheckDuplicate(streamMessage);
      match verdict
      case InvalidNumberingError => Emit(BadNumbering(streamMessage.id));
      case GapMisMatchError => Emit(BadNumbering(streamMessage.id));
      case Returns(isUnseen) =>
        if isUnseen {
          Emit(UnseenReceived(streamMessage.id));
        }
        if isUnseen || streamMessage.id in seenButNotPropagatedSet {
          PropagateMessage(streamMessage, source);
        } else {
          Emit(IgnoredDuplicate(streamMessage.id));
        }
    }

    method HandleBufferedMessages(streamKey: StreamKey)
      requires Valid()
      modifies this, streams, streams.detectors.Values, messageBuffer
      ensures Valid() && fresh(streams.detectors.Values - old(streams.detectors.Values))
      ensures State() == Drained(old(State()), streamKey, messageBuffer.maxSize)
    {
      ghost var before := State();
      var copies := messageBuffer.PopAll(streamKey);
      assert State() == before.(buffer := before.buffer - {streamKey});
      NothingBuffered(before.buffer, streamKey);
      HandleCopies(copies);
    }

    /** The copies are handled like newly received data, in order. */
    method HandleCopies(copies: seq<Copy>)
      requires Valid()
      modifies this, streams, streams.detectors.Values, messageBuffer
      ensures Valid() && fresh(streams.detectors.Values - old(streams.detectors.Values))
      ensures State() == OnDataAll(old(State()), copies, messageBuffer.maxSize)
    {
      ghost var before := State();
      var i := 0;
      while i < |copies|
        invariant 0 <= i <= |copies| && Valid()
        invariant fresh(streams.detectors.Values - old(streams.detectors.Values))
        invariant OnDataAll(State(), copies[i..], messageBuffer.maxSize) ==
                  OnDataAll(before, copies, messageBuffer.maxSize)
      {
        FirstOfRest(copies, i);
        OnDataReceived(copies[i].message, copies[i].source);
        i := i + 1;
      }
    }

    method SubscribeToStreamOnNode(node: NodeId, streamKey: StreamKey)
      requires Valid() && streamKey in streams.streams
      modifies this, streams, streams.detectors.Values, messageBuffer
      ensures Valid() && fresh(streams.detectors.Values - old(streams.detectors.Values))
      ensures State() == Subscribed(old(State()), streamKey, node, messageBuffer.maxSize)
    {
      streams.AddInboundNode(streamKey, node);
      streams.AddOutboundNode(streamKey, node);
      assert State() == old(State()).(streams := WithNode(old(State()).streams, streamKey, node));
      HandleBufferedMessages(streamKey);
    }

    method UnsubscribeFromStreamOnNode(node: NodeId, streamKey: StreamKey)
      requires Valid() && streamKey in streams.streams
      modifies streams`streams
      ensures Valid() && State() == Unsubscribed(old(State()), streamKey, node)
      ensures OnlyWithoutIn(old(State()).streams, State().streams, streamKey, node)
    {
      streams.RemoveNodeFromStream(streamKey, node);
    }

    /** First part of handleTrackerInstruction: drop all nodes that are not in the instruction. */
    method BeginTrackerInstruction(streamKey: StreamKey, nodeIds: set<NodeId>)
      requires Valid()
      modifies streams`streams
      ensures Valid() && State() == Instructed(old(State()), streamKey, nodeIds)
      ensures OnlyInstructedStay(old(State()).streams, State().streams, streamKey, nodeIds)
    {
      SubscribeToStreamIfHaveNotYet(streamKey);
      ghost var st := State();
      var currentNodes := streams.GetAllNodesForStream(streamKey);
      var nodesToUnsubscribeFrom := currentNodes - nodeIds;
      UnsubscribeAll(nodesToUnsubscribeFrom, streamKey);
      KeptNodes(st.streams[streamKey], currentNodes, nodeIds);
    }

    method UnsubscribeAll(nodesToUnsubscribeFrom: set<NodeId>, streamKey: StreamKey)
      requires Valid() && streamKey in streams.streams
      modifies streams`streams
      ensures Valid()
      ensures var before := old(State()).streams;
        var peers := WithoutNodes(before[streamKey], nodesToUnsubscribeFrom);
        State() == old(State()).(streams := before[streamKey := peers])
    {
      ghost var st := State();
      var todo := nodesToUnsubscribeFrom;
      assert nodesToUnsubscribeFrom - todo == {} && WithoutNodes(st.streams[streamKey], {}) == st.streams[streamKey];
      assert State() == st.(streams := st.streams[streamKey := st.streams[streamKey]]);
      while todo != {}
        invariant todo <= nodesToUnsubscribeFrom && Valid() && streamKey in streams.streams
        invariant State() == st.(streams :=
          st.streams[streamKey := WithoutNodes(st.streams[streamKey], nodesToUnsubscribeFrom - todo)])
      {
        var node :| node in todo;
        UnsubscribeFromStreamOnNode(node, streamKey);
        WithoutOneMore(st.streams, streamKey, nodesToUnsubscribeFrom - todo, node);
        Remaining(nodesToUnsubscribeFrom, todo, node);
        todo := todo - {node};
      }
      assert nodesToUnsubscribeFrom - {} == nodesToUnsubscribeFrom;
    }

    /** Last part of handleTrackerInstruction, when every connection attempt has ended. */
    method EndTrackerInstruction(streamKey: StreamKey, counter: int)
      requires Valid()
      modifies streams`streams
      ensures Valid() && State() == CounterUpdated(old(State()), streamKey, counter)
    {
      if streamKey in streams.streams {
        streams.UpdateCounter(streamKey, counter);
      }
    }

    method OnNodeDisconnected(node: NodeId)
      requires Valid()
      modifies streams`streams
      ensures Valid() && State() == Disconnected(old(State()), node)
      ensures OnlyWithout(old(State()).streams, State().streams, node)
    {
      var _ := streams.RemoveNodeFromAllStreams(node);
    }

    /** A send of propagateMessage has ended; the 100th failure in a row disconnects the subscriber. */
    method OnSendEnded(id: MessageId, subscriber: NodeId, ok: bool)
      requires Valid()
      modifies this`events, this`consecutiveDeliveryFailures, streams`streams
      ensures Valid() && State() == SendEnded(old(State()), id, subscriber, ok)
      ensures events == old(events) + if ok then [] else [PropagationFailed(id, subscriber)]
    {
      if ok {
        SetFailures(subscriber, 0);
        return;
      }
      Emit(PropagationFailed(id, subscriber));
      var count := if subscriber in consecutiveDeliveryFailures then consecutiveDeliveryFailures[subscriber] + 1 else 1;
      SetFailures(subscriber, count);
      if count >= MAX_DELIVERY_FAILURES {
        OnNodeDisconnected(subscriber);
        SetFailures(subscriber, 0);
      }
    }

    method SetFailures(subscriber: NodeId, count: nat)
      requires Valid()
      modifies this`consecutiveDeliveryFailures
      ensures Valid() && State() == old(State()).(failures := old(State()).failures[subscriber := count])
    {
      consecutiveDeliveryFailures := consecutiveDeliveryFailures[subscriber := count];
    }

    /** A timer of the message buffer fires: its own copy goes. */
    method OnBufferTimeout(ref: nat)
      requires Valid() && ref in messageBuffer.armed && forall r :: r in messageBuffer.armed ==> ref <= r
      modifies this`lost, messageBuffer
      ensures Valid() && State() == TimedOut(old(State()), old(messageBuffer.armed[ref]))
    {
      ghost var id := messageBuffer.armed[ref];
      if id in messageBuffer.buffer {
        lost := lost + {messageBuffer.buffer[id][0].message.id};
      }
      messageBuffer.TimerFires(ref);
    }
  }
}
