/**
 * Message chains at a node: what the detectors of the stream manager, and with them the node, make of the
 * messages that one publisher sends in one chain of one stream, among all other messages.
 */
module NodeChains {
  import opened Identifiers
  import opened Collections
  import opened Options
  import opened Numbers
  import opened GapLists
  import opened DetectorRuns
  import opened Chains
  import opened ChainCapacity
  import opened Messages
  import opened NodeSteps
  import opened NodeRuns

  predicate Earlier(a: MessageId, b: MessageId) {
    a.timestamp < b.timestamp || (a.timestamp == b.timestamp && a.sequenceNumber < b.sequenceNumber)
  }

  /** A chain as a publisher makes it: each message names the one before it, and the first names none. */
  ghost predicate MessageChain(ms: seq<StreamMessage>, s: StreamKey, chain: ChainKey) {
    && (forall k :: 0 <= k < |ms| ==> ms[k].id.streamKey == s && ms[k].id.chain == chain)
    && (forall j, k :: 0 <= j < k < |ms| ==> Earlier(ms[j].id, ms[k].id))
    && (ms != [] ==> ms[0].previous == None)
    && (forall k :: 0 < k < |ms| ==>
          ms[k].previous == Some(NumberPair(ms[k - 1].id.timestamp, ms[k - 1].id.sequenceNumber)))
  }

  /** The messages of a chain among all those received. */
  function OfChain(received: seq<StreamMessage>, s: StreamKey, chain: ChainKey): seq<StreamMessage> {
    if received == [] then []
    else
      var before, m := OfChain(received[..|received| - 1], s, chain), received[|received| - 1];
      if m.id.streamKey == s && m.id.chain == chain then before + [m] else before
  }

  /** The messages ms are received in the order given, others among them. */
  ghost predicate ReceivedInOrder(received: seq<StreamMessage>, ms: seq<StreamMessage>, order: seq<nat>, s: StreamKey,
                                  chain: ChainKey) {
    var own := OfChain(received, s, chain);
    |own| == |order| && forall i :: 0 <= i < |order| ==> order[i] < |ms| && own[i] == ms[order[i]]
  }

  function NumbersIn(ms: seq<StreamMessage>): seq<NumberPair> {
    seq(|ms|, k requires 0 <= k < |ms| => NumberPair(ms[k].id.timestamp, ms[k].id.sequenceNumber))
  }

  // ----- the detectors -----

  /** All gap lists after the messages have been marked, one after the other. */
  function MarkedAll(received: seq<StreamMessage>): map<DetectorKey, seq<Gap>> {
    if received == [] then map[] else NextGaps(MarkedAll(received[..|received| - 1]), received[|received| - 1])
  }

  function ArrivalsIn(ms: seq<StreamMessage>): seq<Arrival> {
    seq(|ms|, k requires 0 <= k < |ms| => ArrivalOf(ms[k]))
  }

  /** Each chain of each stream has its own detector, which sees the chain's messages and no others. */
  lemma {:induction false} OwnDetector(received: seq<StreamMessage>, s: StreamKey, chain: ChainKey)
    ensures GapsFor(MarkedAll(received), DetectorKey(s, chain)) ==
            After(MAX_NUMBER_OF_GAPS, ArrivalsIn(OfChain(received, s, chain)))
  {
    if received == [] {
    } else {
      var q, m := received[..|received| - 1], received[|received| - 1];
      OwnDetector(q, s, chain);
      if KeyOf(m.id) == DetectorKey(s, chain) {
        var own := OfChain(q, s, chain);
        var arrivals := ArrivalsIn(own + [m]);
        assert arrivals[..|arrivals| - 1] == ArrivalsIn(own);
      }
    }
  }

  lemma ChainNumbers(ms: seq<StreamMessage>, s: StreamKey, chain: ChainKey)
    requires MessageChain(ms, s, chain)
    ensures Chain(NumbersIn(ms))
    ensures forall k :: 0 <= k < |ms| ==> ArrivalOf(ms[k]) == Message(NumbersIn(ms), k)
  {
    var c := NumbersIn(ms);
    forall j, k | 0 <= j < k < |c| ensures Less(c[j], c[k]) {
      assert Earlier(ms[j].id, ms[k].id);
    }
    forall k | 0 <= k < |ms| ensures ArrivalOf(ms[k]) == Message(c, k) {
      assert ms[k].id.Number() == c[k];
      if k > 0 {
        assert ms[k].previous == Some(NumberPair(ms[k - 1].id.timestamp, ms[k - 1].id.sequenceNumber));
        assert c[k - 1] == NumberPair(ms[k - 1].id.timestamp, ms[k - 1].id.sequenceNumber);
      }
    }
  }

  lemma OwnArrivals(received: seq<StreamMessage>, ms: seq<StreamMessage>, order: seq<nat>, s: StreamKey,
                    chain: ChainKey)
    requires MessageChain(ms, s, chain) && ReceivedInOrder(received, ms, order, s, chain)
    ensures Indices(NumbersIn(ms), order)
    ensures ArrivalsIn(OfChain(received, s, chain)) == Deliveries(NumbersIn(ms), order)
  {
    ChainNumbers(ms, s, chain);
    var c, own := NumbersIn(ms), OfChain(received, s, chain);
    assert |ArrivalsIn(own)| == |Deliveries(c, order)|;
    forall i | 0 <= i < |order| ensures ArrivalsIn(own)[i] == Deliveries(c, order)[i] {
      assert own[i] == ms[order[i]];
    }
  }

  /**
   * The messages of the chain that count when they arrive: the first of all, and those beyond it that have
   * not arrived before, unless the detector has given them up.
   */
  ghost predicate Due(ms: seq<StreamMessage>, order: seq<nat>, k: nat)
    requires k < |ms| && Indices(NumbersIn(ms), order)
  {
    order == [] ||
    (k > order[0] && k !in order &&
     !GivenUp(MAX_NUMBER_OF_GAPS, Deliveries(NumbersIn(ms), order),
              NumberPair(ms[k].id.timestamp, ms[k].id.sequenceNumber)))
  }

  lemma NextDelivery(c: seq<NumberPair>, max: nat, order: seq<nat>, k: nat)
    requires Chain(c) && Indices(c, order) && max >= 1 && k < |c|
    ensures Step(max, After(max, Deliveries(c, order)), Message(c, k)).verdict ==
      Returns(order == [] || (k > order[0] && k !in order && !GivenUp(max, Deliveries(c, order), c[k])))
  {
    var all := order + [k];
    DeliveriesPrefix(c, all, |order|);
    assert all[..|order|] == order;
    NeverThrows(c, max, all, |order|);
    AcceptanceWithDrops(c, max, all, |order|);
    assert VerdictAt(max, Deliveries(c, all), |order|) ==
           Step(max, After(max, Deliveries(c, order)), Message(c, k)).verdict;
  }

  /** The next message of the chain, whichever it is, is called unseen exactly if it is due; it causes no error. */
  lemma ChainAtStreamManager(received: seq<StreamMessage>, ms: seq<StreamMessage>, order: seq<nat>, s: StreamKey,
                             chain: ChainKey, k: nat)
    requires MessageChain(ms, s, chain) && ReceivedInOrder(received, ms, order, s, chain) && k < |ms|
    ensures Indices(NumbersIn(ms), order)
    ensures Judged(MarkedAll(received), ms[k]).verdict == Returns(Due(ms, order, k))
  {
    ChainNumbers(ms, s, chain);
    OwnArrivals(received, ms, order, s, chain);
    OwnDetector(received, s, chain);
    NextDelivery(NumbersIn(ms), MAX_NUMBER_OF_GAPS, order, k);
    assert ArrivalOf(ms[k]) == Message(NumbersIn(ms), k);
  }

  /** No chain of up to twice the capacity ever loses a message, so that only first deliveries matter. */
  lemma ShortChainDue(ms: seq<StreamMessage>, order: seq<nat>, s: StreamKey, chain: ChainKey, k: nat)
    requires MessageChain(ms, s, chain) && Indices(NumbersIn(ms), order) && k < |ms| <= 2 * MAX_NUMBER_OF_GAPS
    ensures Due(ms, order, k) <==> order == [] || (k > order[0] && k !in order)
  {
    var c := NumbersIn(ms);
    ChainNumbers(ms, s, chain);
    ShortChainsNeverDrop(c, MAX_NUMBER_OF_GAPS, order);
    var run := Deliveries(c, order);
    NothingGivenUp(MAX_NUMBER_OF_GAPS, run, |run|);
    assert run[..|run|] == run && c[k] !in Lost(MAX_NUMBER_OF_GAPS, run);
  }

  // ----- the node -----

  /** The messages that the node received from elsewhere. */
  function DataOf(inputs: seq<Input>): seq<StreamMessage> {
    if inputs == [] then []
    else
      var before, last := DataOf(inputs[..|inputs| - 1]), inputs[|inputs| - 1];
      if last.Data? then before + [last.message] else before
  }

  ghost predicate SameGaps(a: map<DetectorKey, seq<Gap>>, b: map<DetectorKey, seq<Gap>>) {
    forall key :: GapsFor(a, key) == GapsFor(b, key)
  }

  lemma StaleKeepsGaps(gaps: map<DetectorKey, seq<Gap>>, m: StreamMessage)
    requires Judged(gaps, m).verdict == Returns(false)
    ensures SameGaps(NextGaps(gaps, m), gaps)
  {
  }

  lemma SameGapsMarked(a: map<DetectorKey, seq<Gap>>, b: map<DetectorKey, seq<Gap>>, m: StreamMessage)
    requires SameGaps(a, b)
    ensures Judged(a, m) == Judged(b, m) && SameGaps(NextGaps(a, m), NextGaps(b, m))
  {
    assert GapsFor(a, KeyOf(m.id)) == GapsFor(b, KeyOf(m.id));
    forall key ensures GapsFor(NextGaps(a, m), key) == GapsFor(NextGaps(b, m), key) {
      assert GapsFor(a, key) == GapsFor(b, key);
    }
  }

  /** What is known to the outside of everything but new data: no message is called new, none misnumbered. */
  ghost predicate Quiet(events: seq<NodeEvent>, events': seq<NodeEvent>) {
    events <= events' &&
    forall i :: |events| <= i < |events'| ==> !events'[i].UnseenReceived? && !events'[i].BadNumbering?
  }

  lemma QuietTwice(a: seq<NodeEvent>, b: seq<NodeEvent>, c: seq<NodeEvent>)
    requires Quiet(a, b) && Quiet(b, c)
    ensures Quiet(a, c)
  {
  }

  lemma DataGaps(st: NodeState, m: StreamMessage, source: Option<NodeId>, maxSize: nat)
    ensures OnData(st, m, source, maxSize).gaps == NextGaps(st.gaps, m)
  {
  }

  lemma StaleIsQuiet(st: NodeState, m: StreamMessage, source: Option<NodeId>, maxSize: nat)
    requires Judged(st.gaps, m).verdict == Returns(false)
    ensures Quiet(st.events, OnData(st, m, source, maxSize).events)
    ensures SameGaps(OnData(st, m, source, maxSize).gaps, st.gaps)
  {
    DataGaps(st, m, source, maxSize);
    StaleKeepsGaps(st.gaps, m);
  }

  /** Buffered copies that are handled again leave the detectors alone, and are never called new. */
  lemma {:induction false} DrainIsQuiet(st: NodeState, copies: seq<Copy>, maxSize: nat)
    requires maxSize >= 2 && InvWith(st, copies)
    ensures Quiet(st.events, OnDataAll(st, copies, maxSize).events)
    ensures SameGaps(OnDataAll(st, copies, maxSize).gaps, st.gaps)
    decreases |copies|
  {
    if copies == [] {
    } else {
      var c := copies[0];
      assert copies == [Copy(c.message, c.source)] + copies[1..];
      DuplicateKeepsInv(st, c.message, c.source, maxSize, copies[1..]);
      StaleIsQuiet(st, c.message, c.source, maxSize);
      DrainIsQuiet(OnData(st, c.message, c.source, maxSize), copies[1..], maxSize);
      QuietTwice(st.events, OnData(st, c.message, c.source, maxSize).events, OnDataAll(st, copies, maxSize).events);
    }
  }

  lemma OthersAreQuiet(st: NodeState, input: Input, maxSize: nat)
    requires maxSize >= 2 && NodeInv(st) && !input.Data?
    ensures Quiet(st.events, NextState(st, input, maxSize).events)
    ensures SameGaps(NextState(st, input, maxSize).gaps, st.gaps)
  {
    match input
    case NodeSubscribed(s, n) =>
      if s in st.streams && s in st.buffer {
        var joined := st.(streams := WithNode(st.streams, s, n));
        DrainIsQuiet(joined.(buffer := joined.buffer - {s}), joined.buffer[s], maxSize);
      }
    case _ =>
  }

  /** Of the inputs, data moves the detectors as it would alone, and nothing else does. */
  lemma InputGaps(st: NodeState, received: seq<StreamMessage>, input: Input, maxSize: nat)
    requires maxSize >= 2 && NodeInv(st) && SameGaps(st.gaps, MarkedAll(received))
    ensures SameGaps(NextState(st, input, maxSize).gaps,
                     MarkedAll(if input.Data? then received + [input.message] else received))
  {
    if input.Data? {
      assert (received + [input.message])[..|received + [input.message]| - 1] == received;
      DataGaps(st, input.message, input.source, maxSize);
      SameGapsMarked(st.gaps, MarkedAll(received), input.message);
    } else {
      OthersAreQuiet(st, input, maxSize);
    }
  }

  /** Whatever else happens to the node, its detectors are where the data received has brought them. */
  lemma {:induction false} GapsFromData(inputs: seq<Input>, maxSize: nat)
    requires maxSize >= 2
    ensures SameGaps(AfterRun(inputs, maxSize).gaps, MarkedAll(DataOf(inputs)))
  {
    if inputs == [] {
    } else {
      var q, last := inputs[..|inputs| - 1], inputs[|inputs| - 1];
      GapsFromData(q, maxSize);
      RunKeepsInv(q, maxSize);
      InputGaps(AfterRun(q, maxSize), DataOf(q), last, maxSize);
    }
  }

  /** The events say that the message is new, and then that it is sent on or nothing yet. */
  ghost predicate CalledNew(events: seq<NodeEvent>, events': seq<NodeEvent>, id: MessageId) {
    events + [UnseenReceived(id)] <= events' && Quiet(events + [UnseenReceived(id)], events')
  }

  lemma JudgedIsTold(st: NodeState, m: StreamMessage, source: Option<NodeId>, maxSize: nat)
    requires Judged(st.gaps, m).verdict.Returns?
    ensures var events' := OnData(st, m, source, maxSize).events;
      if Judged(st.gaps, m).verdict == Returns(true) then CalledNew(st.events, events', m.id)
      else Quiet(st.events, events')
  {
    PropagateIsQuiet(Marking(st, m), m, source, maxSize);
    PropagateIsQuiet(Logged(Marking(st, m), UnseenReceived(m.id)), m, source, maxSize);
  }

  /**
   * A message of a chain reaches a node that has been through any run of events, and so far has received the
   * chain's messages in the order given, among other data: it is emitted as new exactly if it is due, and it
   * is never called misnumbered.
   */
  lemma ChainAtNode(inputs: seq<Input>, maxSize: nat, ms: seq<StreamMessage>, order: seq<nat>, s: StreamKey,
                    chain: ChainKey, k: nat, source: Option<NodeId>)
    requires maxSize >= 2 && MessageChain(ms, s, chain) && k < |ms|
    requires ReceivedInOrder(DataOf(inputs), ms, order, s, chain)
    ensures Indices(NumbersIn(ms), order)
    ensures var before := AfterRun(inputs, maxSize);
      var events' := OnData(before, ms[k], source, maxSize).events;
      if Due(ms, order, k) then CalledNew(before.events, events', ms[k].id) else Quiet(before.events, events')
  {
    var st := AfterRun(inputs, maxSize);
    GapsFromData(inputs, maxSize);
    ChainAtStreamManager(DataOf(inputs), ms, order, s, chain, k);
    SameGapsMarked(st.gaps, MarkedAll(DataOf(inputs)), ms[k]);
    JudgedIsTold(st, ms[k], source, maxSize);
  }

  // ----- whole runs -----

  predicate IsOf(id: MessageId, s: StreamKey, chain: ChainKey) {
    id.streamKey == s && id.chain == chain
  }

  /** No message of the chain is called new or misnumbered. */
  ghost predicate QuietOn(events: seq<NodeEvent>, events': seq<NodeEvent>, s: StreamKey, chain: ChainKey) {
    events <= events' &&
    forall i :: |events| <= i < |events'| && (events'[i].UnseenReceived? || events'[i].BadNumbering?) ==>
      !IsOf(events'[i].id, s, chain)
  }

  ghost predicate NoneMisnumbered(events: seq<NodeEvent>, s: StreamKey, chain: ChainKey) {
    forall i :: 0 <= i < |events| && events[i].BadNumbering? ==> !IsOf(events[i].id, s, chain)
  }

  lemma {:induction false} QuietCount(events: seq<NodeEvent>, events': seq<NodeEvent>, s: StreamKey, chain: ChainKey,
                                      id: MessageId)
    requires QuietOn(events, events', s, chain) && IsOf(id, s, chain)
    ensures UnseenCount(events', id) == UnseenCount(events, id)
    decreases |events'|
  {
    if |events'| == |events| {
      assert events' == events;
    } else {
      QuietCount(events, events'[..|events'| - 1], s, chain, id);
    }
  }

  /** What one message of the chain does to the count of another, or its own. */
  lemma CalledNewCount(events: seq<NodeEvent>, events': seq<NodeEvent>, m: MessageId, s: StreamKey, chain: ChainKey,
                       id: MessageId)
    requires CalledNew(events, events', m) && IsOf(id, s, chain)
    ensures UnseenCount(events', id) == UnseenCount(events, id) + if m == id then 1 else 0
    ensures NoneMisnumbered(events, s, chain) ==> NoneMisnumbered(events', s, chain)
  {
    QuietCount(events + [UnseenReceived(m)], events', s, chain, id);
    CountsAppend(events, UnseenReceived(m), id);
  }

  lemma PropagateIsQuiet(st: NodeState, m: StreamMessage, source: Option<NodeId>, maxSize: nat)
    requires m.id.streamKey in st.streams
    ensures Quiet(st.events, Propagate(st, m, source, maxSize).events)
  {
  }

  lemma OtherDataIsQuiet(st: NodeState, m: StreamMessage, source: Option<NodeId>, maxSize: nat, s: StreamKey,
                         chain: ChainKey)
    requires !IsOf(m.id, s, chain)
    ensures QuietOn(st.events, OnData(st, m, source, maxSize).events, s, chain)
  {
    PropagateIsQuiet(Marking(st, m), m, source, maxSize);
    PropagateIsQuiet(Logged(Marking(st, m), UnseenReceived(m.id)), m, source, maxSize);
  }

  /** The run without its last input, in terms of the chain's messages received. */
  lemma BeforeLast(inputs: seq<Input>, ms: seq<StreamMessage>, order: seq<nat>, s: StreamKey, chain: ChainKey)
    requires inputs != [] && ReceivedInOrder(DataOf(inputs), ms, order, s, chain)
    ensures var q, last := inputs[..|inputs| - 1], inputs[|inputs| - 1];
      if last.Data? && IsOf(last.message.id, s, chain)
      then order != [] && ReceivedInOrder(DataOf(q), ms, order[..|order| - 1], s, chain) &&
           order[|order| - 1] < |ms| && last.message == ms[order[|order| - 1]]
      else ReceivedInOrder(DataOf(q), ms, order, s, chain)
  {
    var q, last := inputs[..|inputs| - 1], inputs[|inputs| - 1];
    if last.Data? {
      var received := DataOf(q);
      assert (received + [last.message])[..|received + [last.message]| - 1] == received;
      if IsOf(last.message.id, s, chain) {
        var own := OfChain(received, s, chain);
        assert OfChain(DataOf(inputs), s, chain) == own + [last.message];
        assert forall i :: 0 <= i < |own| ==> own[i] == (own + [last.message])[i];
      }
    }
  }

  lemma IdsDiffer(ms: seq<StreamMessage>, s: StreamKey, chain: ChainKey, j: nat, k: nat)
    requires MessageChain(ms, s, chain) && j < |ms| && k < |ms|
    ensures ms[j].id == ms[k].id <==> j == k
  {
    if j < k {
      assert Earlier(ms[j].id, ms[k].id);
    } else if k < j {
      assert Earlier(ms[k].id, ms[j].id);
    }
  }

  /** How often message k has been emitted, if nothing is lost to the capacity. */
  function Emissions(order: seq<nat>, k: nat): nat {
    if order != [] && k in order && k >= order[0] then 1 else 0
  }

  lemma EmissionsGrow(order: seq<nat>, j: nat, k: nat)
    ensures var before := Emissions(order, k);
      Emissions(order + [j], k) == before + if j == k && (order == [] || (j > order[0] && j !in order)) then 1 else 0
  {
    if order != [] && k == order[0] { assert k in order; }
  }

  /**
   * A chain of up to 20000 messages, delivered to a new node in any order and any number of times, among
   * other data and whatever else happens to the node: the first message delivered and every one beyond it
   * that was delivered have been emitted once, the others never, and none was called misnumbered.
   */
  lemma {:induction false} ChainEmittedOnce(inputs: seq<Input>, maxSize: nat, ms: seq<StreamMessage>, order: seq<nat>,
                                            s: StreamKey, chain: ChainKey, k: nat)
    requires maxSize >= 2 && MessageChain(ms, s, chain) && k < |ms| <= 2 * MAX_NUMBER_OF_GAPS
    requires ReceivedInOrder(DataOf(inputs), ms, order, s, chain)
    ensures UnseenCount(AfterRun(inputs, maxSize).events, ms[k].id) ==
            if k in order && k >= order[0] then 1 else 0
    ensures NoneMisnumbered(AfterRun(inputs, maxSize).events, s, chain)
  {
    if inputs == [] {
    } else {
      var q, last := inputs[..|inputs| - 1], inputs[|inputs| - 1];
      BeforeLast(inputs, ms, order, s, chain);
      if last.Data? && IsOf(last.message.id, s, chain) {
        var n := |order| - 1;
        ChainEmittedOnce(q, maxSize, ms, order[..n], s, chain, k);
        ChainLast(q, maxSize, ms, order[..n], s, chain, order[n], last.source, k);
        EmissionsGrow(order[..n], order[n], k);
        LastSplit(order);
      } else {
        ChainEmittedOnce(q, maxSize, ms, order, s, chain, k);
        OthersLeaveCount(q, last, maxSize, s, chain, ms[k].id);
      }
    }
  }

  lemma ChainLast(inputs: seq<Input>, maxSize: nat, ms: seq<StreamMessage>, order: seq<nat>, s: StreamKey,
                  chain: ChainKey, j: nat, source: Option<NodeId>, k: nat)
    requires maxSize >= 2 && MessageChain(ms, s, chain) && j < |ms| && k < |ms| <= 2 * MAX_NUMBER_OF_GAPS
    requires ReceivedInOrder(DataOf(inputs), ms, order, s, chain)
    requires NoneMisnumbered(AfterRun(inputs, maxSize).events, s, chain)
    ensures var before := AfterRun(inputs, maxSize).events;
      var after := OnData(AfterRun(inputs, maxSize), ms[j], source, maxSize).events;
      && UnseenCount(after, ms[k].id) == UnseenCount(before, ms[k].id) +
         (if j == k && (order == [] || (j > order[0] && j !in order)) then 1 else 0)
      && NoneMisnumbered(after, s, chain)
  {
    var st := AfterRun(inputs, maxSize);
    var after := OnData(st, ms[j], source, maxSize).events;
    ChainAtNode(inputs, maxSize, ms, order, s, chain, j, source);
    ShortChainDue(ms, order, s, chain, j);
    IdsDiffer(ms, s, chain, j, k);
    if Due(ms, order, j) {
      CalledNewCount(st.events, after, ms[j].id, s, chain, ms[k].id);
    } else {
      QuietCount(st.events, after, s, chain, ms[k].id);
    }
  }

  lemma OthersLeaveCount(inputs: seq<Input>, last: Input, maxSize: nat, s: StreamKey, chain: ChainKey, id: MessageId)
    requires maxSize >= 2 && IsOf(id, s, chain) && (last.Data? ==> !IsOf(last.message.id, s, chain))
    ensures var before := AfterRun(inputs, maxSize); var after := NextState(before, last, maxSize);
      && UnseenCount(after.events, id) == UnseenCount(before.events, id)
      && (NoneMisnumbered(before.events, s, chain) ==> NoneMisnumbered(after.events, s, chain))
  {
    var st := AfterRun(inputs, maxSize);
    match last {
      case Data(m, source) => OtherDataIsQuiet(st, m, source, maxSize, s, chain);
      case _ =>
        RunKeepsInv(inputs, maxSize);
        OthersAreQuiet(st, last, maxSize);
    }
    QuietCount(st.events, NextState(st, last, maxSize).events, s, chain, id);
  }
}
