/** What the events of a node do to its state, as functions on values. src/logic/Node.ts. */
module NodeSteps {
  import opened Identifiers
  import opened Options
  import opened GapLists
  import opened Messages
  import opened MessageBuffers

  /** The gap limit of the detectors that a stream creates. */
  const MAX_NUMBER_OF_GAPS := 10000

  /** Duplicate detectors are kept per stream, publisher and message chain. */
  datatype DetectorKey = DetectorKey(streamKey: StreamKey, chain: ChainKey)

  datatype StreamState = StreamState(inboundNodes: set<NodeId>, outboundNodes: set<NodeId>, counter: int)

  /** What a node makes known while it handles data; Propagated lists the receivers. */
  datatype NodeEvent =
    | UnseenReceived(id: MessageId)
    | Propagated(id: MessageId, subscribers: set<NodeId>)
    | IgnoredDuplicate(id: MessageId)
    | BadNumbering(id: MessageId)
    | PropagationFailed(id: MessageId, subscriber: NodeId)

  /**
   * `lost` has the ids of which the buffer has dropped a copy: no room, or a timeout. `failures` counts
   * the failed sends to a node since the last one that succeeded.
   */
  datatype NodeState = NodeState(
    streams: map<StreamKey, StreamState>,
    gaps: map<DetectorKey, seq<Gap>>,
    held: set<MessageId>,
    buffer: map<StreamKey, seq<Copy>>,
    lost: set<MessageId>,
    failures: map<NodeId, nat>,
    events: seq<NodeEvent>)

  function KeyOf(id: MessageId): DetectorKey {
    DetectorKey(id.streamKey, id.chain)
  }

  function GapsFor(gaps: map<DetectorKey, seq<Gap>>, key: DetectorKey): seq<Gap> {
    if key in gaps then gaps[key] else []
  }

  /** What the detector of the message's chain would answer now. */
  function Judged(gaps: map<DetectorKey, seq<Gap>>, m: StreamMessage): Marked {
    Mark(GapsFor(gaps, KeyOf(m.id)), MAX_NUMBER_OF_GAPS, m.previous, m.id.Number())
  }

  function SetUp(streams: map<StreamKey, StreamState>, s: StreamKey): map<StreamKey, StreamState> {
    if s in streams then streams else streams[s := StreamState({}, {}, 0)]
  }

  /** To whom propagateMessage sends: everybody but the node the message came from. */
  function Subscribers(streams: map<StreamKey, StreamState>, s: StreamKey, source: Option<NodeId>): set<NodeId>
    requires s in streams
  {
    set n | n in streams[s].outboundNodes && Some(n) != source
  }

  /** The ids of the copies that a put pushes out. */
  function PushedOut(buffer: map<StreamKey, seq<Copy>>, maxSize: nat, s: StreamKey): set<MessageId> {
    if Full(buffer, maxSize, s) && buffer[s] != [] then {buffer[s][0].message.id} else {}
  }

  function Logged(st: NodeState, e: NodeEvent): NodeState {
    st.(events := st.events + [e])
  }

  function Held(st: NodeState, m: StreamMessage, source: Option<NodeId>, maxSize: nat): NodeState {
    st.(held := st.held + {m.id},
        buffer := PutIn(st.buffer, maxSize, m.id.streamKey, Copy(m, source)),
        lost := st.lost + PushedOut(st.buffer, maxSize, m.id.streamKey))
  }

  function Sent(st: NodeState, m: StreamMessage, subscribers: set<NodeId>): NodeState {
    Logged(st.(held := st.held - {m.id}), Propagated(m.id, subscribers))
  }

  /** propagateMessage */
  function Propagate(st: NodeState, m: StreamMessage, source: Option<NodeId>, maxSize: nat): NodeState
    requires m.id.streamKey in st.streams
  {
    var subscribers := Subscribers(st.streams, m.id.streamKey, source);
    if subscribers == {} then Held(st, m, source, maxSize) else Sent(st, m, subscribers)
  }

  /** onDataReceived up to the detector's answer. */
  function Marking(st: NodeState, m: StreamMessage): NodeState {
    st.(streams := SetUp(st.streams, m.id.streamKey), gaps := st.gaps[KeyOf(m.id) := Judged(st.gaps, m).gaps])
  }

  /** onDataReceived */
  function OnData(st: NodeState, m: StreamMessage, source: Option<NodeId>, maxSize: nat): NodeState {
    var marked := Marking(st, m);
    match Judged(st.gaps, m).verdict
    case Returns(isUnseen) =>
      if isUnseen then Propagate(Logged(marked, UnseenReceived(m.id)), m, source, maxSize)
      else if m.id in st.held then Propagate(marked, m, source, maxSize)
      else Logged(marked, IgnoredDuplicate(m.id))
    case _ => Logged(marked, BadNumbering(m.id))
  }

  /** Copies taken from the buffer are handled like newly received data, one after the other. */
  function OnDataAll(st: NodeState, copies: seq<Copy>, maxSize: nat): NodeState
    decreases |copies|
  {
    if copies == [] then st
    else OnDataAll(OnData(st, copies[0].message, copies[0].source, maxSize), copies[1..], maxSize)
  }

  /** handleBufferedMessages */
  function Drained(st: NodeState, s: StreamKey, maxSize: nat): NodeState {
    if s in st.buffer then OnDataAll(st.(buffer := st.buffer - {s}), st.buffer[s], maxSize) else st
  }

  function WithNode(streams: map<StreamKey, StreamState>, s: StreamKey, n: NodeId): map<StreamKey, StreamState>
    requires s in streams
  {
    streams[s := streams[s].(inboundNodes := streams[s].inboundNodes + {n},
                             outboundNodes := streams[s].outboundNodes + {n})]
  }

  function WithoutNode(streams: map<StreamKey, StreamState>, s: StreamKey, n: NodeId): map<StreamKey, StreamState>
    requires s in streams
  {
    streams[s := streams[s].(inboundNodes := streams[s].inboundNodes - {n},
                             outboundNodes := streams[s].outboundNodes - {n})]
  }

  /** subscribeToStreamOnNode */
  function Subscribed(st: NodeState, s: StreamKey, n: NodeId, maxSize: nat): NodeState
    requires s in st.streams
  {
    Drained(st.(streams := WithNode(st.streams, s, n)), s, maxSize)
  }

  /** unsubscribeFromStreamOnNode */
  function Unsubscribed(st: NodeState, s: StreamKey, n: NodeId): NodeState
    requires s in st.streams
  {
    st.(streams := WithoutNode(st.streams, s, n))
  }

  /** onNodeDisconnected */
  function Disconnected(st: NodeState, n: NodeId): NodeState {
    st.(streams := map s | s in st.streams :: WithoutNode(st.streams, s, n)[s])
  }

  /** One node is taken out of the stream's peers; the others are where they were, and the counter stays. */
  ghost predicate PeersWithout(peers: StreamState, peers': StreamState, n: NodeId) {
    && peers'.counter == peers.counter
    && (forall m :: m in peers'.inboundNodes <==> m in peers.inboundNodes && m != n)
    && (forall m :: m in peers'.outboundNodes <==> m in peers.outboundNodes && m != n)
  }

  /** One node is taken out of one stream. */
  ghost predicate OnlyWithoutIn(streams: map<StreamKey, StreamState>, streams': map<StreamKey, StreamState>,
                                s: StreamKey, n: NodeId)
    requires s in streams
  {
    && streams'.Keys == streams.Keys && PeersWithout(streams[s], streams'[s], n)
    && forall t :: t in streams && t != s ==> streams'[t] == streams[t]
  }

  /** One node is taken out of all streams. */
  ghost predicate OnlyWithout(streams: map<StreamKey, StreamState>, streams': map<StreamKey, StreamState>, n: NodeId) {
    streams'.Keys == streams.Keys && forall s :: s in streams ==> PeersWithout(streams[s], streams'[s], n)
  }

  lemma DisconnectedTakesOnly(st: NodeState, n: NodeId)
    ensures var st' := Disconnected(st, n);
      OnlyWithout(st.streams, st'.streams, n) && st' == st.(streams := st'.streams)
  {
  }

  /** So many failed sends in a row, and the node is given up. */
  const MAX_DELIVERY_FAILURES: nat := 100

  /** A send of propagateMessage has ended. */
  function SendEnded(st: NodeState, id: MessageId, n: NodeId, ok: bool): NodeState {
    if ok then st.(failures := st.failures[n := 0])
    else
      var count := (if n in st.failures then st.failures[n] else 0) + 1;
      var failed := Logged(st, PropagationFailed(id, n));
      if count >= MAX_DELIVERY_FAILURES then Disconnected(failed, n).(failures := st.failures[n := 0])
      else failed.(failures := st.failures[n := count])
  }

  /** The oldest buffered copy of a stream times out. */
  function TimedOut(st: NodeState, s: StreamKey): NodeState {
    if s in st.buffer && st.buffer[s] != []
    then st.(buffer := AfterPop(st.buffer, s), lost := st.lost + {st.buffer[s][0].message.id})
    else st
  }

  /** The peers left when the node has unsubscribed from `gone`. */
  function WithoutNodes(peers: StreamState, gone: set<NodeId>): StreamState {
    peers.(inboundNodes := peers.inboundNodes - gone, outboundNodes := peers.outboundNodes - gone)
  }

  /** handleTrackerInstruction before any connection attempt has ended: only instructed nodes stay. */
  function Instructed(st: NodeState, s: StreamKey, nodeIds: set<NodeId>): NodeState {
    var streams := SetUp(st.streams, s);
    st.(streams := streams[s := streams[s].(inboundNodes := streams[s].inboundNodes * nodeIds,
                                            outboundNodes := streams[s].outboundNodes * nodeIds)])
  }

  /** Of the stream's peers those in nodeIds stay; nobody comes, and other streams are left alone. */
  ghost predicate OnlyInstructedStay(streams: map<StreamKey, StreamState>, streams': map<StreamKey, StreamState>,
                                     s: StreamKey, nodeIds: set<NodeId>) {
    && streams'.Keys == streams.Keys + {s} && (forall t :: t in streams && t != s ==> streams'[t] == streams[t])
    && if s in streams
       then PeersAmong(streams[s], streams'[s], nodeIds) else streams'[s] == StreamState({}, {}, 0)
  }

  ghost predicate PeersAmong(peers: StreamState, peers': StreamState, nodeIds: set<NodeId>) {
    && peers'.counter == peers.counter
    && (forall m :: m in peers'.inboundNodes <==> m in peers.inboundNodes && m in nodeIds)
    && (forall m :: m in peers'.outboundNodes <==> m in peers.outboundNodes && m in nodeIds)
  }

  /** handleTrackerInstruction after all connection attempts have ended. */
  function CounterUpdated(st: NodeState, s: StreamKey, counter: int): NodeState {
    if s in st.streams then st.(streams := st.streams[s := st.streams[s].(counter := counter)]) else st
  }
}
