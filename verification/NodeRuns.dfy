/** What every run of a node keeps: each message is emitted once and propagated once, or still held. */
module NodeRuns {
  import opened Identifiers
  import opened Options
  import opened GapLists
  import opened Detectors
  import opened DetectorRuns
  import opened Messages
  import opened MessageBuffers
  import opened NodeSteps

  // ----- counting events -----

  function UnseenCount(events: seq<NodeEvent>, id: MessageId): nat {
    if events == [] then 0
    else UnseenCount(events[..|events| - 1], id) + if events[|events| - 1] == UnseenReceived(id) then 1 else 0
  }

  function PropagatedCount(events: seq<NodeEvent>, id: MessageId): nat {
    if events == [] then 0
    else
      var e := events[|events| - 1];
      PropagatedCount(events[..|events| - 1], id) + if e.Propagated? && e.id == id then 1 else 0
  }

  lemma CountsAppend(events: seq<NodeEvent>, e: NodeEvent, id: MessageId)
    ensures UnseenCount(events + [e], id) == UnseenCount(events, id) + if e == UnseenReceived(id) then 1 else 0
    ensures PropagatedCount(events + [e], id) ==
            PropagatedCount(events, id) + if e.Propagated? && e.id == id then 1 else 0
  {
    assert (events + [e])[..|events + [e]| - 1] == events;
  }

  // ----- the invariant -----

  /** Exactly the ids that were emitted but not propagated are held; none is emitted twice. */
  ghost predicate Accounted(held: set<MessageId>, events: seq<NodeEvent>) {
    forall id :: UnseenCount(events, id) == PropagatedCount(events, id) + (if id in held then 1 else 0) <= 1
  }

  /** The detector of the id's chain has seen its number. */
  ghost predicate SeenId(gaps: map<DetectorKey, seq<Gap>>, id: MessageId) {
    GapsFor(gaps, KeyOf(id)) != [] && !Unseen(GapsFor(gaps, KeyOf(id)), id.Number())
  }

  ghost predicate EmittedAreSeen(gaps: map<DetectorKey, seq<Gap>>, events: seq<NodeEvent>) {
    forall id :: UnseenCount(events, id) > 0 ==> SeenId(gaps, id)
  }

  ghost predicate AllReachable(gaps: map<DetectorKey, seq<Gap>>) {
    forall key :: Reachable(GapsFor(gaps, key), MAX_NUMBER_OF_GAPS)
  }

  /** Handling the copies again will never look like new data. */
  ghost predicate Stale(gaps: map<DetectorKey, seq<Gap>>, copies: seq<Copy>) {
    forall k :: 0 <= k < |copies| ==> Judged(gaps, copies[k].message).verdict == Returns(false)
  }

  ghost predicate AllStale(gaps: map<DetectorKey, seq<Gap>>, buffer: map<StreamKey, seq<Copy>>) {
    forall s :: s in buffer ==> Stale(gaps, buffer[s])
  }

  predicate HasCopy(copies: seq<Copy>, id: MessageId) {
    exists k :: 0 <= k < |copies| && copies[k].message.id == id
  }

  function BufferOf(buffer: map<StreamKey, seq<Copy>>, s: StreamKey): seq<Copy> {
    if s in buffer then buffer[s] else []
  }

  /** Each held message has a copy in the buffer or among `rest`, unless one was lost. */
  ghost predicate HeldHasCopy(held: set<MessageId>, lost: set<MessageId>, buffer: map<StreamKey, seq<Copy>>,
                              rest: seq<Copy>) {
    forall id :: id in held ==> id in lost || HasCopy(BufferOf(buffer, id.streamKey), id) || HasCopy(rest, id)
  }

  /** The invariant, while the copies in `rest` are still to be handled. */
  ghost predicate InvWith(st: NodeState, rest: seq<Copy>) {
    && Accounted(st.held, st.events)
    && EmittedAreSeen(st.gaps, st.events)
    && AllReachable(st.gaps)
    && AllStale(st.gaps, st.buffer) && Stale(st.gaps, rest)
    && HeldHasCopy(st.held, st.lost, st.buffer, rest)
  }

  ghost predicate NodeInv(st: NodeState) {
    InvWith(st, [])
  }

  // ----- the detectors -----

  function ArrivalOf(m: StreamMessage): Arrival {
    Arrival(m.previous, m.id.Number())
  }

  function NextGaps(gaps: map<DetectorKey, seq<Gap>>, m: StreamMessage): map<DetectorKey, seq<Gap>> {
    gaps[KeyOf(m.id) := Judged(gaps, m).gaps]
  }

  lemma MarkingKeepsReachable(gaps: map<DetectorKey, seq<Gap>>, m: StreamMessage)
    requires AllReachable(gaps)
    ensures AllReachable(NextGaps(gaps, m))
  {
    MarkKeepsReachable(GapsFor(gaps, KeyOf(m.id)), MAX_NUMBER_OF_GAPS, m.previous, m.id.Number());
    forall key ensures Reachable(GapsFor(NextGaps(gaps, m), key), MAX_NUMBER_OF_GAPS) {
      assert Reachable(GapsFor(gaps, key), MAX_NUMBER_OF_GAPS);
    }
  }

  lemma MarkingKeepsStale(gaps: map<DetectorKey, seq<Gap>>, m: StreamMessage, copies: seq<Copy>)
    requires AllReachable(gaps) && Stale(gaps, copies)
    ensures Stale(NextGaps(gaps, m), copies)
  {
    forall k | 0 <= k < |copies| ensures Judged(NextGaps(gaps, m), copies[k].message).verdict == Returns(false) {
      var c := copies[k].message;
      if KeyOf(c.id) == KeyOf(m.id) {
        FalseStaysFalse(MAX_NUMBER_OF_GAPS, GapsFor(gaps, KeyOf(m.id)), ArrivalOf(m), ArrivalOf(c));
      }
    }
  }

  lemma MarkingKeepsSeen(gaps: map<DetectorKey, seq<Gap>>, m: StreamMessage, id: MessageId)
    requires AllReachable(gaps) && SeenId(gaps, id)
    ensures SeenId(NextGaps(gaps, m), id)
  {
    if KeyOf(id) == KeyOf(m.id) {
      var g := GapsFor(gaps, KeyOf(id));
      MarkKeepsReachable(g, MAX_NUMBER_OF_GAPS, m.previous, m.id.Number());
      if Unseen(Judged(gaps, m).gaps, id.Number()) {
        StepShrinks(MAX_NUMBER_OF_GAPS, g, ArrivalOf(m), id.Number());
      }
    }
  }

  /** Acceptance takes an unseen number, marks it seen, and makes every copy of the message stale. */
  lemma AcceptedOnce(gaps: map<DetectorKey, seq<Gap>>, m: StreamMessage)
    requires AllReachable(gaps) && Judged(gaps, m).verdict == Returns(true)
    ensures !SeenId(gaps, m.id) && SeenId(NextGaps(gaps, m), m.id)
    ensures Judged(NextGaps(gaps, m), m).verdict == Returns(false)
  {
    AcceptTakesOut(MAX_NUMBER_OF_GAPS, GapsFor(gaps, KeyOf(m.id)), ArrivalOf(m));
    AcceptedThenFalse(MAX_NUMBER_OF_GAPS, GapsFor(gaps, KeyOf(m.id)), ArrivalOf(m));
  }

  lemma FalseRepeats(gaps: map<DetectorKey, seq<Gap>>, m: StreamMessage)
    requires AllReachable(gaps) && Judged(gaps, m).verdict == Returns(false)
    ensures Judged(NextGaps(gaps, m), m).verdict == Returns(false)
  {
    FalseStaysFalse(MAX_NUMBER_OF_GAPS, GapsFor(gaps, KeyOf(m.id)), ArrivalOf(m), ArrivalOf(m));
  }

  lemma MarkingKeepsInv(st: NodeState, m: StreamMessage, rest: seq<Copy>)
    requires InvWith(st, rest)
    ensures InvWith(Marking(st, m), rest)
  {
    MarkingKeepsReachable(st.gaps, m);
    MarkingKeepsStale(st.gaps, m, rest);
    forall s | s in st.buffer ensures Stale(NextGaps(st.gaps, m), st.buffer[s]) {
      MarkingKeepsStale(st.gaps, m, st.buffer[s]);
    }
    forall id | UnseenCount(st.events, id) > 0 ensures SeenId(NextGaps(st.gaps, m), id) {
      MarkingKeepsSeen(st.gaps, m, id);
    }
  }

  // ----- holding and sending -----

  lemma PutCopies(buffer: map<StreamKey, seq<Copy>>, maxSize: nat, m: StreamMessage, source: Option<NodeId>,
                  id: MessageId)
    requires maxSize >= 2
    ensures var buffer' := PutIn(buffer, maxSize, m.id.streamKey, Copy(m, source));
      && HasCopy(BufferOf(buffer', m.id.streamKey), m.id)
      && (HasCopy(BufferOf(buffer, id.streamKey), id) ==>
            HasCopy(BufferOf(buffer', id.streamKey), id) || id in PushedOut(buffer, maxSize, m.id.streamKey))
  {
    var s := m.id.streamKey;
    var before := BufferOf(buffer, s);
    var after := BufferOf(PutIn(buffer, maxSize, s, Copy(m, source)), s);
    var n := |after| - 1;
    assert after[n].message.id == m.id;
    if id.streamKey == s && HasCopy(before, id) {
      var k :| 0 <= k < |before| && before[k].message.id == id;
      var j := if Full(buffer, maxSize, s) then k - 1 else k;
      assert j < 0 || after[j].message.id == id;
    }
  }

  lemma PutStale(gaps: map<DetectorKey, seq<Gap>>, buffer: map<StreamKey, seq<Copy>>, maxSize: nat, m: StreamMessage,
                 source: Option<NodeId>)
    requires AllStale(gaps, buffer) && Judged(gaps, m).verdict == Returns(false)
    ensures AllStale(gaps, PutIn(buffer, maxSize, m.id.streamKey, Copy(m, source)))
  {
  }

  lemma HeldCovers(st: NodeState, m: StreamMessage, source: Option<NodeId>, maxSize: nat, rest: seq<Copy>, c: Copy)
    requires maxSize >= 2 && c.message == m && HeldHasCopy(st.held, st.lost, st.buffer, [c] + rest)
    ensures var st' := Held(st, m, source, maxSize); HeldHasCopy(st'.held, st'.lost, st'.buffer, rest)
  {
    var st' := Held(st, m, source, maxSize);
    forall id | id in st'.held
      ensures id in st'.lost || HasCopy(BufferOf(st'.buffer, id.streamKey), id) || HasCopy(rest, id)
    {
      PutCopies(st.buffer, maxSize, m, source, id);
      OthersStay(c, rest, id);
    }
  }

  lemma OthersStay(c: Copy, rest: seq<Copy>, id: MessageId)
    ensures HasCopy([c] + rest, id) <==> c.message.id == id || HasCopy(rest, id)
  {
    var all := [c] + rest;
    assert all[0] == c;
    if HasCopy(rest, id) {
      var k :| 0 <= k < |rest| && rest[k].message.id == id;
      assert all[k + 1].message.id == id;
    }
  }

  /** The accepted message, or the held one that comes again, is put back or sent. */
  lemma PropagateKeepsInv(st: NodeState, m: StreamMessage, source: Option<NodeId>, maxSize: nat, rest: seq<Copy>,
                          c: Copy)
    requires maxSize >= 2 && c.message == m && m.id.streamKey in st.streams
    requires Accounted(st.held + {m.id}, st.events) && EmittedAreSeen(st.gaps, st.events) && AllReachable(st.gaps)
    requires UnseenCount(st.events, m.id) == 1
    requires AllStale(st.gaps, st.buffer) && Stale(st.gaps, rest) && Judged(st.gaps, m).verdict == Returns(false)
    requires HeldHasCopy(st.held, st.lost, st.buffer, [c] + rest)
    ensures InvWith(Propagate(st, m, source, maxSize), rest)
  {
    var subscribers := Subscribers(st.streams, m.id.streamKey, source);
    if subscribers == {} {
      HeldCovers(st, m, source, maxSize, rest, c);
      PutStale(st.gaps, st.buffer, maxSize, m, source);
    } else {
      SentSettles(st, m, subscribers);
      forall id | id in st.held - {m.id}
        ensures id in st.lost || HasCopy(BufferOf(st.buffer, id.streamKey), id) || HasCopy(rest, id)
      {
        OthersStay(c, rest, id);
      }
    }
  }

  lemma SentSettles(st: NodeState, m: StreamMessage, subscribers: set<NodeId>)
    requires Accounted(st.held + {m.id}, st.events) && EmittedAreSeen(st.gaps, st.events)
    ensures var st' := Sent(st, m, subscribers); Accounted(st'.held, st'.events) && EmittedAreSeen(st'.gaps, st'.events)
  {
    forall id
      ensures var events' := st.events + [Propagated(m.id, subscribers)];
        && UnseenCount(events', id) == UnseenCount(st.events, id)
        && PropagatedCount(events', id) == PropagatedCount(st.events, id) + if id == m.id then 1 else 0
    {
      CountsAppend(st.events, Propagated(m.id, subscribers), id);
    }
    forall id ensures id in st.held + {m.id} <==> id in st.held - {m.id} || id == m.id {}
  }

  // ----- receiving data -----

  lemma QuietEvent(st: NodeState, e: NodeEvent, rest: seq<Copy>)
    requires InvWith(st, rest) && (e.IgnoredDuplicate? || e.BadNumbering? || e.PropagationFailed?)
    ensures InvWith(Logged(st, e), rest)
  {
    forall id
      ensures UnseenCount(st.events + [e], id) == UnseenCount(st.events, id)
      ensures PropagatedCount(st.events + [e], id) == PropagatedCount(st.events, id)
    {
      CountsAppend(st.events, e, id);
    }
  }

  /** Emitting a message for the first time. */
  lemma EmittedOnce(st: NodeState, m: StreamMessage)
    requires Accounted(st.held, st.events) && EmittedAreSeen(st.gaps, st.events) && !SeenId(st.gaps, m.id)
    ensures var events' := st.events + [UnseenReceived(m.id)];
      && Accounted(st.held + {m.id}, events') && UnseenCount(events', m.id) == 1
      && (forall id :: UnseenCount(events', id) > 0 ==> id == m.id || UnseenCount(st.events, id) > 0)
  {
    var events' := st.events + [UnseenReceived(m.id)];
    assert UnseenCount(st.events, m.id) == 0;
    forall id
      ensures UnseenCount(events', id) == UnseenCount(st.events, id) + if id == m.id then 1 else 0
      ensures PropagatedCount(events', id) == PropagatedCount(st.events, id)
    {
      CountsAppend(st.events, UnseenReceived(m.id), id);
    }
  }

  lemma MoreCopiesHeld(held: set<MessageId>, lost: set<MessageId>, buffer: map<StreamKey, seq<Copy>>,
                       rest: seq<Copy>, c: Copy)
    requires HeldHasCopy(held, lost, buffer, rest)
    ensures HeldHasCopy(held, lost, buffer, [c] + rest)
  {
    forall id | HasCopy(rest, id) ensures HasCopy([c] + rest, id) {
      OthersStay(c, rest, id);
    }
  }

  lemma AcceptedKeepsInv(st: NodeState, m: StreamMessage, source: Option<NodeId>, maxSize: nat, rest: seq<Copy>)
    requires maxSize >= 2 && InvWith(st, rest) && Judged(st.gaps, m).verdict == Returns(true)
    ensures InvWith(OnData(st, m, source, maxSize), rest)
  {
    AcceptedOnce(st.gaps, m);
    EmittedOnce(st, m);
    MarkingKeepsInv(st, m, rest);
    var c := Copy(m, source);
    MoreCopiesHeld(st.held, st.lost, st.buffer, rest, c);
    PropagateKeepsInv(Logged(Marking(st, m), UnseenReceived(m.id)), m, source, maxSize, rest, c);
  }

  /** A duplicate of the message, which may be the next of the copies taken from the buffer. */
  lemma DuplicateKeepsInv(st: NodeState, m: StreamMessage, source: Option<NodeId>, maxSize: nat, rest: seq<Copy>)
    requires maxSize >= 2 && InvWith(st, [Copy(m, source)] + rest) && Judged(st.gaps, m).verdict == Returns(false)
    ensures InvWith(OnData(st, m, source, maxSize), rest)
  {
    var c := Copy(m, source);
    var marked := Marking(st, m);
    MarkingKeepsInv(st, m, [c] + rest);
    FalseRepeats(st.gaps, m);
    assert Stale(marked.gaps, rest) by {
      forall k | 0 <= k < |rest| ensures Judged(marked.gaps, rest[k].message).verdict == Returns(false) {
        assert rest[k] == ([c] + rest)[k + 1];
      }
    }
    if m.id in st.held {
      assert st.held + {m.id} == st.held;
      PropagateKeepsInv(marked, m, source, maxSize, rest, c);
    } else {
      forall id | id in st.held && HasCopy([c] + rest, id) ensures HasCopy(rest, id) {
        OthersStay(c, rest, id);
      }
      QuietEvent(marked, IgnoredDuplicate(m.id), rest);
    }
  }

  lemma ReceivedKeepsInv(st: NodeState, m: StreamMessage, source: Option<NodeId>, maxSize: nat)
    requires maxSize >= 2 && NodeInv(st)
    ensures NodeInv(OnData(st, m, source, maxSize))
  {
    match Judged(st.gaps, m).verdict
    case Returns(isUnseen) =>
      if isUnseen {
        AcceptedKeepsInv(st, m, source, maxSize, []);
      } else {
        MoreCopiesHeld(st.held, st.lost, st.buffer, [], Copy(m, source));
        DuplicateKeepsInv(st, m, source, maxSize, []);
      }
    case _ =>
      MarkingKeepsInv(st, m, []);
      QuietEvent(Marking(st, m), BadNumbering(m.id), []);
  }

  // ----- handling buffered copies again -----

  lemma {:induction false} DrainKeepsInv(st: NodeState, copies: seq<Copy>, maxSize: nat)
    requires maxSize >= 2 && InvWith(st, copies)
    ensures NodeInv(OnDataAll(st, copies, maxSize))
    decreases |copies|
  {
    if copies == [] {
    } else {
      assert copies == [Copy(copies[0].message, copies[0].source)] + copies[1..];
      DuplicateKeepsInv(st, copies[0].message, copies[0].source, maxSize, copies[1..]);
      DrainKeepsInv(OnData(st, copies[0].message, copies[0].source, maxSize), copies[1..], maxSize);
    }
  }

  lemma DrainedKeepsInv(st: NodeState, s: StreamKey, maxSize: nat)
    requires maxSize >= 2 && NodeInv(st)
    ensures NodeInv(Drained(st, s, maxSize))
  {
    if s in st.buffer {
      DrainKeepsInv(st.(buffer := st.buffer - {s}), st.buffer[s], maxSize);
    }
  }

  lemma TimeoutKeepsInv(st: NodeState, s: StreamKey)
    requires NodeInv(st)
    ensures NodeInv(TimedOut(st, s))
  {
    if s in st.buffer && st.buffer[s] != [] {
      var st' := TimedOut(st, s);
      forall id | id in st'.held
        ensures id in st'.lost || HasCopy(BufferOf(st'.buffer, id.streamKey), id) || HasCopy([], id)
      {
        PoppedCopy(st.buffer, s, id);
      }
    }
  }

  lemma PoppedCopy(buffer: map<StreamKey, seq<Copy>>, s: StreamKey, id: MessageId)
    requires s in buffer && buffer[s] != []
    ensures HasCopy(BufferOf(buffer, id.streamKey), id) ==>
      HasCopy(BufferOf(AfterPop(buffer, s), id.streamKey), id) || id == buffer[s][0].message.id
  {
    var before := BufferOf(buffer, s);
    var after := BufferOf(AfterPop(buffer, s), s);
    if id.streamKey == s && HasCopy(before, id) {
      var k :| 0 <= k < |before| && before[k].message.id == id;
      assert k == 0 || after[k - 1].message.id == id;
    }
  }

  // ----- runs -----

  /** What can happen to a node that removes no stream; StreamSetUp is its own subscription. */
  datatype Input =
    | StreamSetUp(s: StreamKey)
    | InstructionBegun(s: StreamKey, nodeIds: set<NodeId>)
    | InstructionEnded(s: StreamKey, counter: int)
    | Data(message: StreamMessage, source: Option<NodeId>)
    | NodeSubscribed(s: StreamKey, n: NodeId)
    | NodeUnsubscribed(s: StreamKey, n: NodeId)
    | NodeDisconnected(n: NodeId)
    | CopyTimedOut(s: StreamKey)
    | SendResult(id: MessageId, n: NodeId, ok: bool)

  /** Subscribing to or unsubscribing from a stream that is not set up throws and changes nothing. */
  function NextState(st: NodeState, input: Input, maxSize: nat): NodeState {
    match input
    case StreamSetUp(s) => st.(streams := SetUp(st.streams, s))
    case InstructionBegun(s, nodeIds) => Instructed(st, s, nodeIds)
    case InstructionEnded(s, counter) => CounterUpdated(st, s, counter)
    case Data(m, source) => OnData(st, m, source, maxSize)
    case NodeSubscribed(s, n) => if s in st.streams then Subscribed(st, s, n, maxSize) else st
    case NodeUnsubscribed(s, n) => if s in st.streams then Unsubscribed(st, s, n) else st
    case NodeDisconnected(n) => Disconnected(st, n)
    case CopyTimedOut(s) => TimedOut(st, s)
    case SendResult(id, n, ok) => SendEnded(st, id, n, ok)
  }

  lemma StepKeepsInv(st: NodeState, input: Input, maxSize: nat)
    requires maxSize >= 2 && NodeInv(st)
    ensures NodeInv(NextState(st, input, maxSize))
  {
    match input
    case Data(m, source) => ReceivedKeepsInv(st, m, source, maxSize);
    case NodeSubscribed(s, n) =>
      if s in st.streams {
        DrainedKeepsInv(st.(streams := WithNode(st.streams, s, n)), s, maxSize);
      }
    case CopyTimedOut(s) => TimeoutKeepsInv(st, s);
    case SendResult(id, n, ok) =>
      if !ok {
        QuietEvent(st, PropagationFailed(id, n), []);
      }
    case _ =>
  }

  const NEW_NODE := NodeState(map[], map[], {}, map[], {}, map[], [])

  function AfterRun(inputs: seq<Input>, maxSize: nat): NodeState {
    if inputs == [] then NEW_NODE
    else NextState(AfterRun(inputs[..|inputs| - 1], maxSize), inputs[|inputs| - 1], maxSize)
  }

  lemma {:induction false} RunKeepsInv(inputs: seq<Input>, maxSize: nat)
    requires maxSize >= 2
    ensures NodeInv(AfterRun(inputs, maxSize))
  {
    if inputs == [] {
    } else {
      RunKeepsInv(inputs[..|inputs| - 1], maxSize);
      StepKeepsInv(AfterRun(inputs[..|inputs| - 1], maxSize), inputs[|inputs| - 1], maxSize);
    }
  }

  predicate NotAccepted(st: NodeState, id: MessageId) {
    UnseenCount(st.events, id) == 0 && PropagatedCount(st.events, id) == 0 && id !in st.held
  }

  predicate PropagatedOnce(st: NodeState, id: MessageId) {
    UnseenCount(st.events, id) == 1 && PropagatedCount(st.events, id) == 1 && id !in st.held
  }

  predicate Waiting(st: NodeState, id: MessageId) {
    UnseenCount(st.events, id) == 1 && PropagatedCount(st.events, id) == 0 && id in st.held
  }

  /**
   * After every run, each message was never emitted, or was emitted once and propagated once, or
   * was emitted once and waits in the set; and unless the buffer lost a copy of it, a waiting
   * message has one there.
   */
  lemma Trichotomy(inputs: seq<Input>, maxSize: nat, id: MessageId)
    requires maxSize >= 2
    ensures var st := AfterRun(inputs, maxSize);
      && (NotAccepted(st, id) || PropagatedOnce(st, id) || Waiting(st, id))
      && (Waiting(st, id) ==> id in st.lost || HasCopy(BufferOf(st.buffer, id.streamKey), id))
      && (!NotAccepted(st, id) ==> SeenId(st.gaps, id))
  {
    RunKeepsInv(inputs, maxSize);
    assert !HasCopy([], id);
  }
}
