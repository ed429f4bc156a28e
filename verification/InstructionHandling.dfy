/**
 * Tracker instructions for one stream, from their arrival at the throttler to the subscriptions that
 * come out of them: src/logic/InstructionThrottler.ts with handleTrackerInstruction of src/logic/Node.ts.
 */
module InstructionHandling {
  import opened Identifiers
  import opened Options
  import opened Messages
  import opened NodeSteps
  import opened InstructionThrottlers

  /**
   * The connection attempts of the handler in flight, still under way and failed, and the peers of the
   * stream when it started.
   */
  datatype System = System(throttle: Throttle, node: NodeState, waiting: set<NodeId>, missed: set<NodeId>,
                           before: StreamState)

  datatype Move =
    | Arrives(q: Queued)
    | Connects(n: NodeId)
    | FailsToConnect(n: NodeId)
    | Finishes(i: nat)
    | Elsewhere(node: NodeState)

  const NO_PEERS := StreamState({}, {}, 0)

  function PeersOf(node: NodeState, s: StreamKey): StreamState {
    if s in node.streams then node.streams[s] else NO_PEERS
  }

  /** The handler starts; an instruction from any but the expected tracker is ignored. */
  function Begun(sys: System, s: StreamKey, q: Queued, expected: TrackerId): System {
    if q.trackerId != expected then sys.(waiting := {}, missed := {}, before := PeersOf(sys.node, s))
    else System(sys.throttle, Instructed(sys.node, s, q.instructionMessage.nodeIds), q.instructionMessage.nodeIds, {},
                PeersOf(sys.node, s))
  }

  /** The throttler's next state; if it has called the handler, the handler starts. */
  function Throttled(sys: System, s: StreamKey, throttle: Throttle, expected: TrackerId): System {
    var sys' := sys.(throttle := throttle);
    if |throttle.handled| > |sys.throttle.handled|
      then Begun(sys', s, throttle.handled[|throttle.handled| - 1], expected)
    else sys'
  }

  function HandlerEnd(sys: System, s: StreamKey, expected: TrackerId): NodeState {
    var last := Last(sys.throttle.handled);
    if last.Some? && last.value.trackerId == expected
    then CounterUpdated(sys.node, s, last.value.instructionMessage.counter) else sys.node
  }

  function Moved(sys: System, s: StreamKey, move: Move, expected: TrackerId, maxSize: nat): System {
    match move
    case Arrives(q) => Throttled(sys, s, Added(sys.throttle, q), expected)
    case Connects(n) =>
      var node := if s in sys.node.streams then Subscribed(sys.node, s, n, maxSize) else sys.node;
      sys.(node := node, waiting := sys.waiting - {n})
    case FailsToConnect(n) => sys.(waiting := sys.waiting - {n}, missed := sys.missed + {n})
    case Finishes(i) =>
      Throttled(sys.(node := HandlerEnd(sys, s, expected)), s, AfterSettling(sys.throttle, i), expected)
    case Elsewhere(node) => sys.(node := node)
  }

  // ----- the stream's peers -----

  predicate SamePeers(st: NodeState, st': NodeState, s: StreamKey) {
    s in st.streams ==> s in st'.streams && st'.streams[s] == st.streams[s]
  }

  lemma DataKeepsPeers(st: NodeState, m: StreamMessage, source: Option<NodeId>, maxSize: nat, s: StreamKey)
    ensures SamePeers(st, OnData(st, m, source, maxSize), s)
  {
  }

  lemma {:induction false} DrainKeepsPeers(st: NodeState, copies: seq<Copy>, maxSize: nat, s: StreamKey)
    ensures SamePeers(st, OnDataAll(st, copies, maxSize), s)
    decreases |copies|
  {
    if copies == [] {
    } else {
      DataKeepsPeers(st, copies[0].message, copies[0].source, maxSize, s);
      DrainKeepsPeers(OnData(st, copies[0].message, copies[0].source, maxSize), copies[1..], maxSize, s);
    }
  }

  /** Handling the buffered messages of the stream does not disturb a subscription. */
  lemma SubscribedPeers(st: NodeState, s: StreamKey, n: NodeId, maxSize: nat)
    requires s in st.streams
    ensures var st' := Subscribed(st, s, n, maxSize);
      s in st'.streams && st'.streams[s] == WithNode(st.streams, s, n)[s]
  {
    var st1 := st.(streams := WithNode(st.streams, s, n));
    if s in st1.buffer {
      DrainKeepsPeers(st1.(buffer := st1.buffer - {s}), st1.buffer[s], maxSize, s);
    }
  }

  // ----- what every run keeps -----

  /** The instructed nodes, except those still to be connected or missed that were not there before. */
  predicate Follows(nodes: set<NodeId>, before: set<NodeId>, nodeIds: set<NodeId>, waiting: set<NodeId>,
                    missed: set<NodeId>) {
    nodes == nodeIds - ((waiting + missed) - before)
  }

  ghost predicate PeersFollow(sys: System, s: StreamKey, expected: TrackerId) {
    var last := Last(sys.throttle.handled);
    last.Some? && last.value.trackerId == expected ==>
      var message := last.value.instructionMessage;
      && s in sys.node.streams && sys.waiting <= message.nodeIds && sys.waiting !! sys.missed
      && Follows(sys.node.streams[s].inboundNodes, sys.before.inboundNodes, message.nodeIds, sys.waiting, sys.missed)
      && Follows(sys.node.streams[s].outboundNodes, sys.before.outboundNodes, message.nodeIds, sys.waiting, sys.missed)
      && (!sys.throttle.handling ==> sys.waiting == {} && sys.node.streams[s].counter == message.counter)
  }

  ghost predicate SystemInv(sys: System, s: StreamKey, expected: TrackerId) {
    OneAtATime(sys.throttle) && PeersFollow(sys, s, expected)
  }

  /** Moves that can happen; elsewhere, the stream's own peers are left alone. */
  predicate CanMove(sys: System, s: StreamKey, move: Move) {
    match move
    case Arrives(q) => true
    case Connects(n) => n in sys.waiting
    case FailsToConnect(n) => n in sys.waiting
    case Finishes(i) => i in sys.throttle.inFlight && sys.waiting == {}
    case Elsewhere(node) => SamePeers(sys.node, node, s)
  }

  /** A handler that starts leaves only instructed nodes, and waits for all of them. */
  lemma BegunFollows(sys: System, s: StreamKey, q: Queued, expected: TrackerId)
    requires OneAtATime(sys.throttle) && sys.throttle.handling && Last(sys.throttle.handled) == Some(q)
    ensures SystemInv(Begun(sys, s, q, expected), s, expected)
  {
  }

  lemma ThrottledFollows(sys: System, s: StreamKey, throttle: Throttle, expected: TrackerId)
    requires OneAtATime(throttle) && (throttle.handling || throttle.handled == sys.throttle.handled)
    requires |throttle.handled| > |sys.throttle.handled| || throttle.handled == sys.throttle.handled
    requires |throttle.handled| == |sys.throttle.handled| ==> PeersFollow(sys.(throttle := throttle), s, expected)
    ensures SystemInv(Throttled(sys, s, throttle, expected), s, expected)
  {
    if |throttle.handled| > |sys.throttle.handled| {
      BegunFollows(sys.(throttle := throttle), s, throttle.handled[|throttle.handled| - 1], expected);
    }
  }

  lemma ConnectFollows(sys: System, s: StreamKey, n: NodeId, expected: TrackerId, maxSize: nat)
    requires SystemInv(sys, s, expected) && n in sys.waiting
    ensures SystemInv(Moved(sys, s, Connects(n), expected, maxSize), s, expected)
  {
    if s in sys.node.streams {
      SubscribedPeers(sys.node, s, n, maxSize);
    }
  }

  lemma FinishFollows(sys: System, s: StreamKey, i: nat, expected: TrackerId, maxSize: nat)
    requires SystemInv(sys, s, expected) && i in sys.throttle.inFlight && sys.waiting == {}
    ensures SystemInv(Moved(sys, s, Finishes(i), expected, maxSize), s, expected)
  {
    SettledOneAtATime(sys.throttle, i);
    var sys' := sys.(node := HandlerEnd(sys, s, expected));
    ThrottledFollows(sys', s, AfterSettling(sys.throttle, i), expected);
  }

  lemma MoveKeepsInv(sys: System, s: StreamKey, move: Move, expected: TrackerId, maxSize: nat)
    requires SystemInv(sys, s, expected) && CanMove(sys, s, move)
    ensures SystemInv(Moved(sys, s, move, expected, maxSize), s, expected)
  {
    match move
    case Arrives(q) =>
      AddedOneAtATime(sys.throttle, q);
      ThrottledFollows(sys, s, Added(sys.throttle, q), expected);
    case Connects(n) => ConnectFollows(sys, s, n, expected, maxSize);
    case FailsToConnect(n) =>
    case Finishes(i) => FinishFollows(sys, s, i, expected, maxSize);
    case Elsewhere(node) =>
  }

  // ----- runs -----

  predicate CanRun(start: NodeState, s: StreamKey, moves: seq<Move>, expected: TrackerId, maxSize: nat)
    decreases |moves|
  {
    moves == [] ||
    (var n := |moves| - 1;
     CanRun(start, s, moves[..n], expected, maxSize) &&
     CanMove(AfterMoves(start, s, moves[..n], expected, maxSize), s, moves[n]))
  }

  function AfterMoves(start: NodeState, s: StreamKey, moves: seq<Move>, expected: TrackerId, maxSize: nat): System
    decreases |moves|
  {
    if moves == [] then System(UNTOUCHED, start, {}, {}, NO_PEERS)
    else
      var n := |moves| - 1;
      Moved(AfterMoves(start, s, moves[..n], expected, maxSize), s, moves[n], expected, maxSize)
  }

  lemma {:induction false} RunFollows(start: NodeState, s: StreamKey, moves: seq<Move>, expected: TrackerId,
                                      maxSize: nat)
    requires CanRun(start, s, moves, expected, maxSize)
    ensures SystemInv(AfterMoves(start, s, moves, expected, maxSize), s, expected)
    decreases |moves|
  {
    if moves == [] {
    } else {
      var n := |moves| - 1;
      RunFollows(start, s, moves[..n], expected, maxSize);
      MoveKeepsInv(AfterMoves(start, s, moves[..n], expected, maxSize), s, moves[n], expected, maxSize);
    }
  }

  /** The part of the run that the throttler sees. */
  function EventsOf(moves: seq<Move>): seq<Event> {
    if moves == [] then []
    else
      var before := EventsOf(moves[..|moves| - 1]);
      match moves[|moves| - 1]
      case Arrives(q) => before + [Arrived(q)]
      case Finishes(i) => before + [HandlerSettled(i)]
      case _ => before
  }

  lemma {:induction false} ThrottleOfRun(start: NodeState, s: StreamKey, moves: seq<Move>, expected: TrackerId,
                                         maxSize: nat)
    requires CanRun(start, s, moves, expected, maxSize)
    ensures Possible(EventsOf(moves))
    ensures AfterMoves(start, s, moves, expected, maxSize).throttle == AfterEvents(EventsOf(moves))
    decreases |moves|
  {
    if moves == [] {
    } else {
      var n := |moves| - 1;
      ThrottleOfRun(start, s, moves[..n], expected, maxSize);
      var before := EventsOf(moves[..n]);
      match moves[n]
      case Arrives(q) => assert (before + [Arrived(q)])[..|before|] == before;
      case Finishes(i) => assert (before + [HandlerSettled(i)])[..|before|] == before;
      case _ =>
    }
  }

  /** What has been handled last, when the throttler is idle. */
  lemma LatestIsHandled(start: NodeState, s: StreamKey, moves: seq<Move>, expected: TrackerId, maxSize: nat, k: nat)
    requires CanRun(start, s, moves, expected, maxSize) && NoNegativeAfterZero(ArrivalsOf(EventsOf(moves)))
    requires k < |ArrivalsOf(EventsOf(moves))| && IsLatest(ArrivalsOf(EventsOf(moves)), k)
    ensures var throttle := AfterMoves(start, s, moves, expected, maxSize).throttle;
      !throttle.handling ==> Last(throttle.handled) == Some(ArrivalsOf(EventsOf(moves))[k])
  {
    ThrottleOfRun(start, s, moves, expected, maxSize);
    if !AfterEvents(EventsOf(moves)).handling {
      IdleMeansLatestHandled(EventsOf(moves), k);
    }
  }

  /**
   * The stream's counter is that of the instruction, and its peers are the instructed nodes, except those
   * that could not be connected and were not peers before.
   */
  ghost predicate Settled(sys: System, s: StreamKey, message: InstructionMessage) {
    && s in sys.node.streams && sys.node.streams[s].counter == message.counter
    && sys.node.streams[s].inboundNodes == message.nodeIds - (sys.missed - sys.before.inboundNodes)
    && sys.node.streams[s].outboundNodes == message.nodeIds - (sys.missed - sys.before.outboundNodes)
  }

  /** When the throttler is idle, and it accepted last an instruction of the expected tracker, the peers are settled. */
  lemma ConvergesToAccepted(start: NodeState, s: StreamKey, moves: seq<Move>, expected: TrackerId, maxSize: nat)
    requires CanRun(start, s, moves, expected, maxSize)
    ensures var sys := AfterMoves(start, s, moves, expected, maxSize);
      var last := Last(sys.throttle.accepted);
      !sys.throttle.handling && last.Some? && last.value.trackerId == expected ==>
        Settled(sys, s, last.value.instructionMessage)
  {
    RunFollows(start, s, moves, expected, maxSize);
  }

  /**
   * However arrivals, connection attempts and other work interleave: when the throttler is idle, and the
   * latest of the instructions that arrived came from the expected tracker, the stream's peers are the
   * nodes of that instruction, except for those that could not be connected and were not there before; so
   * if none was missed, inbound and outbound nodes are exactly the instructed ones. The latest is the last
   * one with the greatest counter, and no negative counter may have followed a greatest one of 0.
   */
  lemma Converges(start: NodeState, s: StreamKey, moves: seq<Move>, expected: TrackerId, maxSize: nat, k: nat)
    requires CanRun(start, s, moves, expected, maxSize) && NoNegativeAfterZero(ArrivalsOf(EventsOf(moves)))
    requires k < |ArrivalsOf(EventsOf(moves))| && IsLatest(ArrivalsOf(EventsOf(moves)), k)
    ensures var sys, latest := AfterMoves(start, s, moves, expected, maxSize), ArrivalsOf(EventsOf(moves))[k];
      !sys.throttle.handling && latest.trackerId == expected ==>
        Settled(sys, s, latest.instructionMessage)
  {
    RunFollows(start, s, moves, expected, maxSize);
    LatestIsHandled(start, s, moves, expected, maxSize, k);
  }
}
