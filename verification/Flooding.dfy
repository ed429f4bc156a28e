/** One message published into a static overlay of nodes with reliable links. */
module Flooding {
  import opened Identifiers
  import opened Numbers
  import opened Options
  import opened GapLists
  import opened Sums
  import opened Graphs
  import opened Messages
  import opened NodeSteps
  import opened NodeRuns

  /** The message on its way over one link. */
  datatype Packet = Packet(from: NodeId, to: NodeId)

  datatype Net = Net(nodes: map<NodeId, NodeState>, wire: multiset<Packet>, sent: nat, delivered: nat, ignored: nat)

  /** To whom a step of a node sent the message. */
  function SentTo(before: NodeState, after: NodeState): set<NodeId> {
    if |after.events| > |before.events| && after.events[|after.events| - 1].Propagated?
    then after.events[|after.events| - 1].subscribers else {}
  }

  predicate Ignored(before: NodeState, after: NodeState) {
    |after.events| > |before.events| && after.events[|after.events| - 1].IgnoredDuplicate?
  }

  function PacketsTo(n: NodeId, receivers: set<NodeId>): set<Packet> {
    set t | t in receivers :: Packet(n, t)
  }

  /** Node n has handled the message, and what it sent is on its way. */
  function Handled(net: Net, n: NodeId, st': NodeState): Net
    requires n in net.nodes
  {
    var receivers := SentTo(net.nodes[n], st');
    Net(net.nodes[n := st'], net.wire + multiset(PacketsTo(n, receivers)), net.sent + |receivers|, net.delivered,
        net.ignored + if Ignored(net.nodes[n], st') then 1 else 0)
  }

  function Publish(net: Net, p: NodeId, m: StreamMessage, maxSize: nat): Net
    requires p in net.nodes
  {
    Handled(net, p, OnData(net.nodes[p], m, None, maxSize))
  }

  function TakenOff(net: Net, packet: Packet): Net {
    net.(wire := net.wire - multiset{packet}, delivered := net.delivered + 1)
  }

  /** A packet arrives; any packet on the wire may be the next. */
  function Deliver(net: Net, packet: Packet, m: StreamMessage, maxSize: nat): Net
    requires packet.to in net.nodes
  {
    Handled(TakenOff(net, packet), packet.to, OnData(net.nodes[packet.to], m, Some(packet.from), maxSize))
  }

  /** The nodes that have emitted the message. */
  function Reached(nodes: map<NodeId, NodeState>, m: StreamMessage): set<NodeId> {
    set n | n in nodes && UnseenCount(nodes[n].events, m.id) > 0
  }

  // ----- one node -----

  ghost predicate TakesPart(st: NodeState, m: StreamMessage, neighbors: set<NodeId>) {
    && NodeInv(st)
    && m.id.streamKey in st.streams && st.streams[m.id.streamKey].outboundNodes == neighbors
    && Judged(st.gaps, m).verdict == Returns(UnseenCount(st.events, m.id) == 0)
  }

  /** What propagateMessage adds to the events of a message that was just emitted. */
  lemma PropagateEvents(st: NodeState, m: StreamMessage, source: Option<NodeId>, maxSize: nat)
    requires m.id.streamKey in st.streams
    ensures var st' := Propagate(st, m, source, maxSize);
      var others := Subscribers(st.streams, m.id.streamKey, source);
      && UnseenCount(st'.events, m.id) == UnseenCount(st.events, m.id)
      && st'.events == (if others == {} then st.events else st.events + [Propagated(m.id, others)])
      && (m.id in st'.held <==> others == {})
      && st'.streams == st.streams && st'.gaps == st.gaps
  {
    CountsAppend(st.events, Propagated(m.id, Subscribers(st.streams, m.id.streamKey, source)), m.id);
  }

  lemma AcceptedState(st: NodeState, m: StreamMessage, source: Option<NodeId>, maxSize: nat)
    requires Judged(st.gaps, m).verdict == Returns(true) && m.id.streamKey in st.streams
    ensures OnData(st, m, source, maxSize) ==
            Propagate(Logged(Marking(st, m), UnseenReceived(m.id)), m, source, maxSize)
  {
  }

  lemma SentByTail(st: NodeState, st': NodeState, m: StreamMessage, others: set<NodeId>)
    requires var emitted := st.events + [UnseenReceived(m.id)];
      st'.events == if others == {} then emitted else emitted + [Propagated(m.id, others)]
    ensures SentTo(st, st') == others && !Ignored(st, st')
  {
  }

  lemma FirstEvents(st: NodeState, m: StreamMessage, source: Option<NodeId>, maxSize: nat)
    requires Judged(st.gaps, m).verdict == Returns(true) && m.id.streamKey in st.streams
    ensures var st' := OnData(st, m, source, maxSize);
      var others := Subscribers(st.streams, m.id.streamKey, source);
      && UnseenCount(st'.events, m.id) == UnseenCount(st.events, m.id) + 1
      && st'.streams == st.streams && st'.gaps == NextGaps(st.gaps, m)
      && SentTo(st, st') == others && !Ignored(st, st')
      && (m.id in st'.held <==> others == {})
  {
    CountsAppend(st.events, UnseenReceived(m.id), m.id);
    PropagateEvents(Logged(Marking(st, m), UnseenReceived(m.id)), m, source, maxSize);
    AcceptedState(st, m, source, maxSize);
    SentByTail(st, OnData(st, m, source, maxSize), m, Subscribers(st.streams, m.id.streamKey, source));
  }

  /** The first arrival: emitted, and sent on to everybody else, or held if there is nobody else. */
  lemma FirstArrival(st: NodeState, m: StreamMessage, source: Option<NodeId>, maxSize: nat, neighbors: set<NodeId>)
    requires maxSize >= 2 && TakesPart(st, m, neighbors) && UnseenCount(st.events, m.id) == 0
    ensures var st' := OnData(st, m, source, maxSize);
      var others := set n | n in neighbors && Some(n) != source;
      && TakesPart(st', m, neighbors) && UnseenCount(st'.events, m.id) == 1
      && SentTo(st, st') == others && !Ignored(st, st')
      && (m.id in st'.held <==> others == {})
  {
    ReceivedKeepsInv(st, m, source, maxSize);
    AcceptedOnce(st.gaps, m);
    FirstEvents(st, m, source, maxSize);
  }

  /** Any further arrival at a node that has sent the message on is ignored. */
  lemma LaterArrival(st: NodeState, m: StreamMessage, source: Option<NodeId>, maxSize: nat, neighbors: set<NodeId>)
    requires maxSize >= 2 && TakesPart(st, m, neighbors) && UnseenCount(st.events, m.id) > 0 && m.id !in st.held
    ensures var st' := OnData(st, m, source, maxSize);
      && TakesPart(st', m, neighbors) && UnseenCount(st'.events, m.id) == UnseenCount(st.events, m.id)
      && SentTo(st, st') == {} && Ignored(st, st') && m.id !in st'.held
  {
    ReceivedKeepsInv(st, m, source, maxSize);
    FalseRepeats(st.gaps, m);
    CountsAppend(st.events, IgnoredDuplicate(m.id), m.id);
  }

  // ----- the spread over the overlay -----

  /** Packets come from reached nodes, one per link and direction, and cover all ways out of them. */
  ghost predicate Spread(g: Graph, reached: set<NodeId>, holders: set<NodeId>, wire: multiset<Packet>) {
    && reached <= g.Keys
    && (forall a, b :: Packet(a, b) in wire ==> a in reached && b in Nbrs(g, a) && wire[Packet(a, b)] == 1)
    && (forall a, b :: a in reached && b in Nbrs(g, a) ==> b in reached || Packet(a, b) in wire)
    && (forall n :: n in holders ==> Nbrs(g, n) <= reached)
    && (forall a, n :: n in holders ==> Packet(a, n) !in wire)
  }

  lemma {:induction false} PacketsPerReceiver(n: NodeId, receivers: set<NodeId>)
    ensures |PacketsTo(n, receivers)| == |receivers|
    decreases |receivers|
  {
    if receivers != {} {
      var t :| t in receivers;
      PacketsPerReceiver(n, receivers - {t});
      assert PacketsTo(n, receivers) == PacketsTo(n, receivers - {t}) + {Packet(n, t)};
    } else {
      assert PacketsTo(n, {}) == {};
    }
  }

  lemma WireStep(wire: multiset<Packet>, packet: Packet, b: NodeId, receivers: set<NodeId>)
    requires packet in wire && forall t :: Packet(b, t) !in wire
    ensures var wire' := wire - multiset{packet} + multiset(PacketsTo(b, receivers));
      && |wire'| == |wire| - 1 + |receivers|
      && (forall a, t :: Packet(a, t) in wire' <==>
            (a == b && t in receivers) || (Packet(a, t) in wire && (Packet(a, t) != packet || wire[packet] > 1)))
      && (forall a, t :: Packet(a, t) in wire' ==> wire'[Packet(a, t)] <= if a == b then 1 else wire[Packet(a, t)])
  {
    PacketsPerReceiver(b, receivers);
  }

  /** Packet (a, b) has come off the wire, and b has sent to `others`, from which no packet was under way. */
  ghost predicate WireMoves(wire: multiset<Packet>, wire': multiset<Packet>, a: NodeId, b: NodeId,
                            others: set<NodeId>) {
    && (forall c, t :: Packet(c, t) in wire' <==>
          (c == b && t in others) || (c != b && Packet(c, t) in wire && (c != a || t != b)))
    && (forall c, t :: Packet(c, t) in wire' ==> wire'[Packet(c, t)] <= 1)
  }

  lemma WireMovesOn(wire: multiset<Packet>, a: NodeId, b: NodeId, others: set<NodeId>)
    requires Packet(a, b) in wire && forall t :: Packet(b, t) !in wire
    requires forall c, t :: Packet(c, t) in wire ==> wire[Packet(c, t)] == 1
    ensures var wire' := wire - multiset{Packet(a, b)} + multiset(PacketsTo(b, others));
      WireMoves(wire, wire', a, b, others) && |wire'| == |wire| - 1 + |others|
  {
    WireStep(wire, Packet(a, b), b, others);
  }

  lemma SpreadGrows(g: Graph, reached: set<NodeId>, holders: set<NodeId>, wire: multiset<Packet>,
                    wire': multiset<Packet>, a: NodeId, b: NodeId)
    requires WellFormed(g) && Spread(g, reached, holders, wire) && a in reached && a in Nbrs(g, b) && b !in reached
    requires WireMoves(wire, wire', a, b, Nbrs(g, b) - {a})
    ensures Spread(g, reached + {b}, if Nbrs(g, b) - {a} == {} then holders + {b} else holders, wire')
  {
  }

  /** A node is reached for the first time. */
  lemma ReachesNew(g: Graph, reached: set<NodeId>, holders: set<NodeId>, wire: multiset<Packet>, a: NodeId, b: NodeId)
    requires WellFormed(g) && Spread(g, reached, holders, wire) && Packet(a, b) in wire && b !in reached
    ensures var others := Nbrs(g, b) - {a};
      var wire' := wire - multiset{Packet(a, b)} + multiset(PacketsTo(b, others));
      && Spread(g, reached + {b}, if others == {} then holders + {b} else holders, wire')
      && |wire'| == |wire| - 1 + |others| && |others| == Degree(g, b) - 1 && b in g
  {
    var others := Nbrs(g, b) - {a};
    assert a in Nbrs(g, b);
    WireMovesOn(wire, a, b, others);
    SpreadGrows(g, reached, holders, wire, wire - multiset{Packet(a, b)} + multiset(PacketsTo(b, others)), a, b);
  }

  /** A packet arrives at a node that has been reached before. */
  lemma ReachesAgain(g: Graph, reached: set<NodeId>, holders: set<NodeId>, wire: multiset<Packet>, a: NodeId, b: NodeId)
    requires Spread(g, reached, holders, wire) && Packet(a, b) in wire && b in reached
    ensures Spread(g, reached, holders, wire - multiset{Packet(a, b)}) && b !in holders
    ensures |wire - multiset{Packet(a, b)}| == |wire| - 1
  {
  }

  /** When the wire is empty, every node has been reached. */
  lemma AllReached(g: Graph, reached: set<NodeId>, holders: set<NodeId>, p: NodeId)
    requires Spread(g, reached, holders, multiset{}) && Connected(g) && p in reached
    ensures reached == g.Keys
  {
    forall n | n in g ensures n in reached {
      assert Joined(g, p, n);
      var path :| Path(g, path) && path[0] == p && path[|path| - 1] == n;
      ClosedSetHoldsPath(g, reached, path);
    }
  }

  // ----- counting -----

  /** Each reached node sends to all its neighbours but one; the publisher to all. */
  function Shares(g: Graph, s: set<NodeId>): map<NodeId, int> {
    map n | n in s :: Degree(g, n) - 1
  }

  lemma SharesGrow(g: Graph, s: set<NodeId>, b: NodeId)
    requires b !in s
    ensures Sum(Shares(g, s + {b})) == Sum(Shares(g, s)) + Degree(g, b) - 1
  {
    SumSplit(Shares(g, s + {b}), b);
    assert Shares(g, s + {b}) - {b} == Shares(g, s);
  }

  ghost predicate Counted(g: Graph, reached: set<NodeId>, inFlight: nat, sent: nat, delivered: nat, ignored: nat) {
    && sent == Sum(Shares(g, reached)) + 1
    && sent == delivered + inFlight
    && ignored == delivered - (|reached| - 1)
  }

  lemma CountNew(g: Graph, reached: set<NodeId>, inFlight: nat, sent: nat, delivered: nat, ignored: nat, b: NodeId,
                 sends: nat)
    requires Counted(g, reached, inFlight, sent, delivered, ignored) && b !in reached && inFlight > 0
    requires sends == Degree(g, b) - 1
    ensures Counted(g, reached + {b}, inFlight - 1 + sends, sent + sends, delivered + 1, ignored)
  {
    SharesGrow(g, reached, b);
  }

  // ----- the network -----

  function Holders(nodes: map<NodeId, NodeState>, m: StreamMessage): set<NodeId> {
    set n | n in nodes && m.id in nodes[n].held
  }

  ghost predicate AllTakePart(g: Graph, nodes: map<NodeId, NodeState>, m: StreamMessage) {
    nodes.Keys == g.Keys && forall n :: n in g ==> TakesPart(nodes[n], m, Nbrs(g, n))
  }

  ghost predicate FloodInv(g: Graph, p: NodeId, m: StreamMessage, net: Net) {
    AllTakePart(g, net.nodes, m) && Progress(g, p, m, net)
  }

  ghost predicate Progress(g: Graph, p: NodeId, m: StreamMessage, net: Net) {
    && p in Reached(net.nodes, m)
    && Spread(g, Reached(net.nodes, m), Holders(net.nodes, m), net.wire)
    && Counted(g, Reached(net.nodes, m), |net.wire|, net.sent, net.delivered, net.ignored)
  }

  lemma OneTakesPart(g: Graph, nodes: map<NodeId, NodeState>, m: StreamMessage, n: NodeId, st': NodeState)
    requires AllTakePart(g, nodes, m) && n in g && TakesPart(st', m, Nbrs(g, n))
    ensures AllTakePart(g, nodes[n := st'], m)
  {
  }

  /** What a step of node n does to the sets of reached and of holding nodes. */
  lemma StepSets(nodes: map<NodeId, NodeState>, n: NodeId, st': NodeState, m: StreamMessage)
    requires n in nodes && UnseenCount(st'.events, m.id) > 0
    requires m.id in nodes[n].held ==> m.id in st'.held
    ensures Reached(nodes[n := st'], m) == Reached(nodes, m) + {n}
    ensures Holders(nodes[n := st'], m) == if m.id in st'.held then Holders(nodes, m) + {n} else Holders(nodes, m)
  {
  }

  lemma OtherNeighbors(neighbors: set<NodeId>, a: NodeId)
    ensures (set n | n in neighbors && Some(n) != Some(a)) == neighbors - {a}
    ensures (set n | n in neighbors && Some(n) != None) == neighbors
  {
  }

  lemma StepSetsAgain(nodes: map<NodeId, NodeState>, n: NodeId, st': NodeState, m: StreamMessage)
    requires n in Reached(nodes, m) && n !in Holders(nodes, m)
    requires UnseenCount(st'.events, m.id) > 0 && m.id !in st'.held
    ensures Reached(nodes[n := st'], m) == Reached(nodes, m)
    ensures Holders(nodes[n := st'], m) == Holders(nodes, m)
  {
  }

  /** A step in which n is reached. */
  lemma HandledNew(g: Graph, p: NodeId, m: StreamMessage, net: Net, packet: Packet, st': NodeState)
    requires WellFormed(g) && Progress(g, p, m, net) && packet in net.wire && packet.to in net.nodes
    requires packet.to !in Reached(net.nodes, m) && packet.to !in Holders(net.nodes, m)
    requires UnseenCount(st'.events, m.id) > 0
    requires SentTo(net.nodes[packet.to], st') == Nbrs(g, packet.to) - {packet.from}
    requires !Ignored(net.nodes[packet.to], st')
    requires m.id in st'.held <==> Nbrs(g, packet.to) - {packet.from} == {}
    ensures Progress(g, p, m, Handled(TakenOff(net, packet), packet.to, st'))
  {
    var a, b := packet.from, packet.to;
    assert packet == Packet(a, b);
    StepSets(net.nodes, b, st', m);
    ReachesNew(g, Reached(net.nodes, m), Holders(net.nodes, m), net.wire, a, b);
    CountNew(g, Reached(net.nodes, m), |net.wire|, net.sent, net.delivered, net.ignored, b, |Nbrs(g, b) - {a}|);
  }

  lemma HandledAgain(g: Graph, p: NodeId, m: StreamMessage, net: Net, packet: Packet, st': NodeState)
    requires Progress(g, p, m, net) && packet in net.wire
    requires packet.to in Reached(net.nodes, m) && packet.to !in Holders(net.nodes, m)
    requires UnseenCount(st'.events, m.id) > 0 && m.id !in st'.held
    requires SentTo(net.nodes[packet.to], st') == {} && Ignored(net.nodes[packet.to], st')
    ensures Progress(g, p, m, Handled(TakenOff(net, packet), packet.to, st'))
  {
    var a, b := packet.from, packet.to;
    assert packet == Packet(a, b);
    StepSetsAgain(net.nodes, b, st', m);
    ReachesAgain(g, Reached(net.nodes, m), Holders(net.nodes, m), net.wire, a, b);
    NoPackets(net.wire - multiset{packet}, b);
  }

  lemma NoPackets(wire: multiset<Packet>, n: NodeId)
    ensures wire + multiset(PacketsTo(n, {})) == wire
  {
    assert PacketsTo(n, {}) == {};
  }

  lemma StepKeepsFlood(g: Graph, p: NodeId, m: StreamMessage, net: Net, packet: Packet, maxSize: nat)
    requires maxSize >= 2 && WellFormed(g) && FloodInv(g, p, m, net) && packet in net.wire && packet.to in g
    ensures FloodInv(g, p, m, Deliver(net, packet, m, maxSize))
  {
    var a, b := packet.from, packet.to;
    assert TakesPart(net.nodes[b], m, Nbrs(g, b));
    if b in Reached(net.nodes, m) {
      ReachesAgain(g, Reached(net.nodes, m), Holders(net.nodes, m), net.wire, a, b);
      LaterArrival(net.nodes[b], m, Some(a), maxSize, Nbrs(g, b));
      OneTakesPart(g, net.nodes, m, b, OnData(net.nodes[b], m, Some(a), maxSize));
      HandledAgain(g, p, m, net, packet, OnData(net.nodes[b], m, Some(a), maxSize));
    } else {
      FirstArrival(net.nodes[b], m, Some(a), maxSize, Nbrs(g, b));
      OtherNeighbors(Nbrs(g, b), a);
      OneTakesPart(g, net.nodes, m, b, OnData(net.nodes[b], m, Some(a), maxSize));
      HandledNew(g, p, m, net, packet, OnData(net.nodes[b], m, Some(a), maxSize));
    }
  }

  // ----- runs -----

  /** Nodes that take part in the overlay, none of which has seen the message; nothing is under way. */
  ghost predicate ReadyNet(g: Graph, net: Net, m: StreamMessage) {
    && AllTakePart(g, net.nodes, m) && Reached(net.nodes, m) == {}
    && net.wire == multiset{} && net.sent == net.delivered == net.ignored == 0
  }

  function FreshNode(s: StreamKey, neighbors: set<NodeId>): NodeState {
    NodeState(map[s := StreamState(neighbors, neighbors, 0)], map[], {}, map[], {}, map[], [])
  }

  /** Nodes that have only joined the stream are ready for any message with a sound predecessor. */
  lemma FreshNodesAreReady(g: Graph, m: StreamMessage)
    requires m.previous.Some? ==> Less(m.previous.value, m.id.Number())
    ensures ReadyNet(g, Net(map n | n in g :: FreshNode(m.id.streamKey, Nbrs(g, n)), multiset{}, 0, 0, 0), m)
  {
    assert forall s: seq<Copy>, id :: s == [] ==> !HasCopy(s, id);
  }

  /** A node gets there by setting the stream up and being subscribed to each neighbour. */
  lemma {:induction false} FreshNodeIsReached(s: StreamKey, neighbors: set<NodeId>, maxSize: nat)
    returns (inputs: seq<Input>)
    ensures inputs != [] && AfterRun(inputs, maxSize) == FreshNode(s, neighbors)
    decreases |neighbors|
  {
    if neighbors == {} {
      inputs := [StreamSetUp(s)];
      assert inputs[..0] == [];
    } else {
      var n :| n in neighbors;
      var before := FreshNodeIsReached(s, neighbors - {n}, maxSize);
      inputs := before + [NodeSubscribed(s, n)];
      assert inputs[..|inputs| - 1] == before;
      assert neighbors - {n} + {n} == neighbors;
    }
  }

  lemma PublishStarts(g: Graph, p: NodeId, m: StreamMessage, net: Net, maxSize: nat)
    requires maxSize >= 2 && WellFormed(g) && p in g && ReadyNet(g, net, m)
    ensures FloodInv(g, p, m, Publish(net, p, m, maxSize)) && Publish(net, p, m, maxSize).delivered == 0
  {
    var st' := OnData(net.nodes[p], m, None, maxSize);
    assert p !in Reached(net.nodes, m) && TakesPart(net.nodes[p], m, Nbrs(g, p));
    FirstArrival(net.nodes[p], m, None, maxSize, Nbrs(g, p));
    OtherNeighbors(Nbrs(g, p), p);
    HandledFirst(g, p, m, net, st');
  }

  lemma HandledFirst(g: Graph, p: NodeId, m: StreamMessage, net: Net, st': NodeState)
    requires WellFormed(g) && p in g && ReadyNet(g, net, m)
    requires TakesPart(st', m, Nbrs(g, p)) && UnseenCount(st'.events, m.id) > 0
    requires SentTo(net.nodes[p], st') == Nbrs(g, p) && !Ignored(net.nodes[p], st')
    requires m.id in st'.held <==> Nbrs(g, p) == {}
    ensures FloodInv(g, p, m, Handled(net, p, st'))
  {
    NobodyHolds(g, net.nodes, m);
    OneTakesPart(g, net.nodes, m, p, st');
    FirstSets(net.nodes, p, st', m);
    PacketsPerReceiver(p, Nbrs(g, p));
    FirstShare(g, p);
    FirstSpread(g, p);
    OnEmptyWire(PacketsTo(p, Nbrs(g, p)));
  }

  lemma NobodyHolds(g: Graph, nodes: map<NodeId, NodeState>, m: StreamMessage)
    requires AllTakePart(g, nodes, m) && Reached(nodes, m) == {}
    ensures Holders(nodes, m) == {}
  {
    forall n | n in nodes ensures m.id !in nodes[n].held {
      assert n !in Reached(nodes, m) && TakesPart(nodes[n], m, Nbrs(g, n));
    }
  }

  lemma FirstSets(nodes: map<NodeId, NodeState>, p: NodeId, st': NodeState, m: StreamMessage)
    requires p in nodes && Reached(nodes, m) == {} == Holders(nodes, m) && UnseenCount(st'.events, m.id) > 0
    ensures Reached(nodes[p := st'], m) == {p}
    ensures Holders(nodes[p := st'], m) == if m.id in st'.held then {p} else {}
  {
    assert p !in Holders(nodes, m);
    StepSets(nodes, p, st', m);
  }

  lemma OnEmptyWire(packets: set<Packet>)
    ensures multiset{} + multiset(packets) == multiset(packets) && |multiset(packets)| == |packets|
  {
  }

  lemma FirstSpread(g: Graph, p: NodeId)
    requires p in g
    ensures Spread(g, {p}, if Nbrs(g, p) == {} then {p} else {}, multiset(PacketsTo(p, Nbrs(g, p))))
  {
  }

  lemma FirstShare(g: Graph, p: NodeId)
    ensures Sum(Shares(g, {p})) == Degree(g, p) - 1
  {
    SharesGrow(g, {}, p);
    assert {} + {p} == {p};
  }

  function Degrees(g: Graph, s: set<NodeId>): map<NodeId, int> {
    map n | n in s :: Degree(g, n)
  }

  /** Twice the number of links: each link counts at both its ends. */
  ghost function TwiceLinks(g: Graph): int {
    Sum(Degrees(g, g.Keys))
  }

  lemma {:induction false} SharesOfAll(g: Graph, s: set<NodeId>)
    ensures Sum(Shares(g, s)) == Sum(Degrees(g, s)) - |s|
    decreases |s|
  {
    if s == {} {
    } else {
      var n :| n in s;
      SharesOfAll(g, s - {n});
      SharesGrow(g, s - {n}, n);
      assert s - {n} + {n} == s;
      SumSplit(Degrees(g, s), n);
      assert Degrees(g, s) - {n} == Degrees(g, s - {n});
    }
  }

  /** With a second node about, connectedness gives every node a neighbour. */
  lemma NobodyAlone(g: Graph, n: NodeId)
    requires WellFormed(g) && Connected(g) && n in g && |g| >= 2
    ensures Degree(g, n) >= 1
  {
    if Nbrs(g, n) == {} {
      assert g.Keys - {n} != {} by { assert g.Keys - {n} == {} ==> g.Keys == {n}; }
      var k :| k in g.Keys - {n};
      assert Joined(g, n, k);
      var path :| Path(g, path) && path[0] == n && path[|path| - 1] == k;
      ClosedSetHoldsPath(g, {n}, path);
    }
  }

  lemma {:induction false} MoreShares(g: Graph, s: set<NodeId>, t: set<NodeId>)
    requires s <= t && forall n :: n in t - s ==> Degree(g, n) >= 1
    ensures Sum(Shares(g, s)) <= Sum(Shares(g, t))
    decreases |t - s|
  {
    if t - s == {} {
      assert t == s;
    } else {
      var n :| n in t - s;
      assert |t - (s + {n})| < |t - s| by { assert t - (s + {n}) == t - s - {n}; }
      SharesGrow(g, s, n);
      MoreShares(g, s + {n}, t);
    }
  }

  ghost predicate LegalRun(net: Net, p: NodeId, m: StreamMessage, run: seq<Packet>, maxSize: nat)
    requires p in net.nodes
    decreases |run|
  {
    run == [] ||
    (var n := |run| - 1;
     LegalRun(net, p, m, run[..n], maxSize) &&
     run[n] in AfterDeliveries(net, p, m, run[..n], maxSize).wire)
  }

  /** Publication, then the deliveries; a packet to an unknown node would get lost. */
  function AfterDeliveries(net: Net, p: NodeId, m: StreamMessage, run: seq<Packet>, maxSize: nat): Net
    requires p in net.nodes
    decreases |run|
  {
    if run == [] then Publish(net, p, m, maxSize)
    else
      var before := AfterDeliveries(net, p, m, run[..|run| - 1], maxSize);
      var packet := run[|run| - 1];
      if packet.to in before.nodes then Deliver(before, packet, m, maxSize) else TakenOff(before, packet)
  }

  lemma {:induction false} RunKeepsFlood(g: Graph, net: Net, p: NodeId, m: StreamMessage, run: seq<Packet>,
                                         maxSize: nat)
    requires maxSize >= 2 && WellFormed(g) && p in g && ReadyNet(g, net, m) && LegalRun(net, p, m, run, maxSize)
    ensures FloodInv(g, p, m, AfterDeliveries(net, p, m, run, maxSize))
    ensures AfterDeliveries(net, p, m, run, maxSize).delivered == |run|
    decreases |run|
  {
    if run == [] {
      PublishStarts(g, p, m, net, maxSize);
    } else {
      var n := |run| - 1;
      RunKeepsFlood(g, net, p, m, run[..n], maxSize);
      var before, packet := AfterDeliveries(net, p, m, run[..n], maxSize), run[n];
      assert packet == Packet(packet.from, packet.to) && packet.to in Nbrs(g, packet.from);
      assert packet.to in g;
      StepKeepsFlood(g, p, m, before, packet, maxSize);
    }
  }

  /**
   * Whatever the interleaving, the message is sent exactly 2E - N + 1 times: no run is longer, and
   * the runs of that length are those that leave nothing under way. Then every node has emitted the
   * message exactly once, and 2E - 2N + 2 of the deliveries were ignored as duplicates.
   */
  lemma Flood(g: Graph, net: Net, p: NodeId, m: StreamMessage, run: seq<Packet>, maxSize: nat)
    requires maxSize >= 2 && WellFormed(g) && Connected(g) && p in g
    requires ReadyNet(g, net, m) && LegalRun(net, p, m, run, maxSize)
    ensures var last := AfterDeliveries(net, p, m, run, maxSize);
      && |run| <= TwiceLinks(g) - |g| + 1
      && (last.wire == multiset{} <==> |run| == TwiceLinks(g) - |g| + 1)
      && (last.wire == multiset{} ==>
            last.sent == TwiceLinks(g) - |g| + 1 && last.ignored == TwiceLinks(g) - 2 * |g| + 2 &&
            EmittedOnceEverywhere(g, last.nodes, m))
  {
    var last := AfterDeliveries(net, p, m, run, maxSize);
    RunKeepsFlood(g, net, p, m, run, maxSize);
    FloodEnds(g, p, m, last);
  }

  lemma FloodEnds(g: Graph, p: NodeId, m: StreamMessage, net: Net)
    requires WellFormed(g) && Connected(g) && p in g && FloodInv(g, p, m, net)
    ensures net.delivered <= TwiceLinks(g) - |g| + 1
    ensures net.wire == multiset{} <==> net.delivered == TwiceLinks(g) - |g| + 1
    ensures net.wire == multiset{} ==>
      net.sent == TwiceLinks(g) - |g| + 1 && net.ignored == TwiceLinks(g) - 2 * |g| + 2 &&
      EmittedOnceEverywhere(g, net.nodes, m)
  {
    var reached := Reached(net.nodes, m);
    SharesOfAll(g, g.Keys);
    AtMostAllShares(g, p, reached);
    EmptyWire(net.wire);
    if net.wire == multiset{} {
      AllReached(g, reached, Holders(net.nodes, m), p);
      ReachedOnce(g, net.nodes, m);
    }
  }

  lemma EmptyWire(wire: multiset<Packet>)
    ensures wire == multiset{} <==> |wire| == 0
  {
  }

  ghost predicate EmittedOnceEverywhere(g: Graph, nodes: map<NodeId, NodeState>, m: StreamMessage) {
    nodes.Keys == g.Keys && forall n :: n in nodes ==> UnseenCount(nodes[n].events, m.id) == 1
  }

  lemma ReachedOnce(g: Graph, nodes: map<NodeId, NodeState>, m: StreamMessage)
    requires AllTakePart(g, nodes, m) && Reached(nodes, m) == g.Keys
    ensures EmittedOnceEverywhere(g, nodes, m)
  {
    forall n | n in nodes ensures UnseenCount(nodes[n].events, m.id) == 1 {
      assert n in Reached(nodes, m) && TakesPart(nodes[n], m, Nbrs(g, n));
    }
  }

  lemma AtMostAllShares(g: Graph, p: NodeId, reached: set<NodeId>)
    requires WellFormed(g) && Connected(g) && p in reached && reached <= g.Keys
    ensures Sum(Shares(g, reached)) <= Sum(Shares(g, g.Keys))
  {
    if |g| >= 2 {
      forall n | n in g ensures Degree(g, n) >= 1 {
        NobodyAlone(g, n);
      }
      MoreShares(g, reached, g.Keys);
    } else {
      assert |g.Keys - {p}| == 0;
      assert reached == g.Keys;
    }
  }
}
