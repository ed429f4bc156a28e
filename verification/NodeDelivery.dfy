/** When a held message goes out, and when a receiver that fails is given up. */
module NodeDelivery {
  import opened Identifiers
  import opened Options
  import opened GapLists
  import opened Messages
  import opened NodeSteps
  import opened NodeRuns

  // ----- a new receiver -----

  /** One of the receivers is not the node that the copy came from. */
  predicate CanGo(c: Copy, receivers: set<NodeId>) {
    exists x :: x in receivers && Some(x) != c.source
  }

  ghost predicate SomeCanGo(copies: seq<Copy>, id: MessageId, receivers: set<NodeId>) {
    exists k :: 0 <= k < |copies| && copies[k].message.id == id && CanGo(copies[k], receivers)
  }

  lemma SubscribersIff(streams: map<StreamKey, StreamState>, s: StreamKey, c: Copy)
    requires s in streams
    ensures Subscribers(streams, s, c.source) != {} <==> CanGo(c, streams[s].outboundNodes)
  {
    if x :| x in streams[s].outboundNodes && Some(x) != c.source {
      assert x in Subscribers(streams, s, c.source);
    }
  }

  lemma PropagateFrame(st: NodeState, m: StreamMessage, source: Option<NodeId>, maxSize: nat, id: MessageId)
    requires m.id.streamKey in st.streams
    ensures var st' := Propagate(st, m, source, maxSize);
      st'.streams == st.streams && UnseenCount(st'.events, id) == UnseenCount(st.events, id)
  {
    CountsAppend(st.events, Propagated(m.id, Subscribers(st.streams, m.id.streamKey, source)), id);
  }

  /** Handling a stale copy changes no set-up stream and emits nothing. */
  lemma DuplicateFrame(st: NodeState, c: Copy, maxSize: nat, id: MessageId)
    requires Judged(st.gaps, c.message).verdict == Returns(false)
    ensures var st' := OnData(st, c.message, c.source, maxSize);
      && (forall s :: s in st.streams ==> s in st'.streams && st'.streams[s] == st.streams[s])
      && UnseenCount(st'.events, id) == UnseenCount(st.events, id)
  {
    CountsAppend(st.events, IgnoredDuplicate(c.message.id), id);
    PropagateFrame(Marking(st, c.message), c.message, c.source, maxSize, id);
  }

  /** Only its own message is let go, and that if somebody else is there to get it. */
  lemma DuplicateLetsGo(st: NodeState, c: Copy, maxSize: nat, id: MessageId)
    requires Judged(st.gaps, c.message).verdict == Returns(false) && id.streamKey in st.streams
    ensures id in OnData(st, c.message, c.source, maxSize).held <==>
            id in st.held && !(c.message.id == id && CanGo(c, st.streams[id.streamKey].outboundNodes))
  {
    SubscribersIff(Marking(st, c.message).streams, c.message.id.streamKey, c);
  }

  lemma SomeCanGoFirst(copies: seq<Copy>, id: MessageId, receivers: set<NodeId>)
    requires copies != []
    ensures SomeCanGo(copies, id, receivers) <==>
            (copies[0].message.id == id && CanGo(copies[0], receivers)) || SomeCanGo(copies[1..], id, receivers)
  {
    var rest := copies[1..];
    if k :| 0 <= k < |copies| && copies[k].message.id == id && CanGo(copies[k], receivers) {
      assert k == 0 || rest[k - 1] == copies[k];
    }
    if k :| 0 <= k < |rest| && rest[k].message.id == id && CanGo(rest[k], receivers) {
      assert copies[k + 1] == rest[k];
    }
  }

  lemma {:induction false} DrainLetsGo(st: NodeState, copies: seq<Copy>, maxSize: nat, id: MessageId)
    requires maxSize >= 2 && InvWith(st, copies) && id.streamKey in st.streams
    ensures var st' := OnDataAll(st, copies, maxSize);
      && (id in st'.held <==> id in st.held && !SomeCanGo(copies, id, st.streams[id.streamKey].outboundNodes))
      && UnseenCount(st'.events, id) == UnseenCount(st.events, id)
    decreases |copies|
  {
    if copies == [] {
    } else {
      var c := copies[0];
      assert copies == [Copy(c.message, c.source)] + copies[1..];
      DuplicateKeepsInv(st, c.message, c.source, maxSize, copies[1..]);
      DuplicateFrame(st, c, maxSize, id);
      DuplicateLetsGo(st, c, maxSize, id);
      SomeCanGoFirst(copies, id, st.streams[id.streamKey].outboundNodes);
      DrainLetsGo(OnData(st, c.message, c.source, maxSize), copies[1..], maxSize, id);
    }
  }

  /**
   * When a node subscribes to a stream, a message held for it goes out if and only if some buffered copy
   * of it came from elsewhere than some outbound node, old or new; otherwise it goes on waiting.
   */
  lemma SubscriptionDelivers(st: NodeState, s: StreamKey, n: NodeId, maxSize: nat, id: MessageId)
    requires maxSize >= 2 && NodeInv(st) && s in st.streams && id.streamKey == s && id in st.held
    ensures var st' := Subscribed(st, s, n, maxSize);
      if SomeCanGo(BufferOf(st.buffer, s), id, st.streams[s].outboundNodes + {n})
      then PropagatedOnce(st', id) else Waiting(st', id)
  {
    var joined := st.(streams := WithNode(st.streams, s, n));
    DrainedKeepsInv(joined, s, maxSize);
    if s in st.buffer {
      DrainLetsGo(joined.(buffer := joined.buffer - {s}), st.buffer[s], maxSize, id);
    }
  }

  /** In particular, a copy from elsewhere than the new node is enough. */
  lemma NewReceiverGetsIt(st: NodeState, s: StreamKey, n: NodeId, maxSize: nat, id: MessageId, k: nat)
    requires maxSize >= 2 && NodeInv(st) && s in st.streams && s in st.buffer && id.streamKey == s && id in st.held
    requires k < |st.buffer[s]| && st.buffer[s][k].message.id == id && st.buffer[s][k].source != Some(n)
    ensures PropagatedOnce(Subscribed(st, s, n, maxSize), id)
  {
    SubscriptionDelivers(st, s, n, maxSize, id);
    assert n in st.streams[s].outboundNodes + {n} && CanGo(st.buffer[s][k], st.streams[s].outboundNodes + {n});
  }

  // ----- who gets a held message, and when -----

  /** The position of the first copy of the message that can go to somebody; the end if there is none. */
  function FirstToGo(copies: seq<Copy>, id: MessageId, receivers: set<NodeId>): nat
    decreases |copies|
  {
    if copies == [] || (copies[0].message.id == id && exists x :: x in receivers && Some(x) != copies[0].source) then 0
    else 1 + FirstToGo(copies[1..], id, receivers)
  }

  lemma {:induction false} FirstToGoMeaning(copies: seq<Copy>, id: MessageId, receivers: set<NodeId>)
    ensures var k := FirstToGo(copies, id, receivers);
      && k <= |copies| && (k < |copies| ==> copies[k].message.id == id && CanGo(copies[k], receivers))
      && forall j :: 0 <= j < k && copies[j].message.id == id ==> !CanGo(copies[j], receivers)
    decreases |copies|
  {
    if copies == [] {
    } else if !(copies[0].message.id == id && CanGo(copies[0], receivers)) {
      FirstToGoMeaning(copies[1..], id, receivers);
      var k := FirstToGo(copies, id, receivers);
      forall j | 0 <= j < k && copies[j].message.id == id ensures !CanGo(copies[j], receivers) {
        assert j == 0 || copies[j] == copies[1..][j - 1];
      }
    }
  }

  /** Since the events were those in `events`, the message has been handed to exactly the nodes `to`. */
  ghost predicate HandedTo(events: seq<NodeEvent>, events': seq<NodeEvent>, id: MessageId, to: set<NodeId>) {
    events <= events' && exists j :: |events| <= j < |events'| && events'[j] == Propagated(id, to)
  }

  ghost predicate HandedInOrder(events: seq<NodeEvent>, events': seq<NodeEvent>, first: MessageId, second: MessageId) {
    exists i, j :: |events| <= i < j < |events'| && events'[i].Propagated? && events'[i].id == first &&
                   events'[j].Propagated? && events'[j].id == second
  }

  /** The nodes that the copy can go to. */
  function ReceiversOf(st: NodeState, c: Copy): set<NodeId>
    requires c.message.id.streamKey in st.streams
  {
    set x | x in st.streams[c.message.id.streamKey].outboundNodes && Some(x) != c.source
  }

  lemma DuplicateEvents(st: NodeState, c: Copy, maxSize: nat)
    requires Judged(st.gaps, c.message).verdict == Returns(false)
    ensures st.events <= OnData(st, c.message, c.source, maxSize).events
    ensures c.message.id.streamKey in st.streams && c.message.id in st.held &&
            CanGo(c, st.streams[c.message.id.streamKey].outboundNodes) ==>
      HandedTo(st.events, OnData(st, c.message, c.source, maxSize).events, c.message.id, ReceiversOf(st, c))
  {
    var id := c.message.id;
    if id.streamKey in st.streams && id in st.held && CanGo(c, st.streams[id.streamKey].outboundNodes) {
      SubscribersIff(st.streams, id.streamKey, c);
      assert OnData(st, c.message, c.source, maxSize).events[|st.events|] == Propagated(id, ReceiversOf(st, c));
    }
  }

  /** The position of the first copy that lets the held message go, while the copies are being handled. */
  function GoesAt(st: NodeState, copies: seq<Copy>, id: MessageId): nat
    requires id.streamKey in st.streams
  {
    FirstToGo(copies, id, st.streams[id.streamKey].outboundNodes)
  }

  predicate WillGo(st: NodeState, copies: seq<Copy>, id: MessageId) {
    id.streamKey in st.streams && id in st.held && GoesAt(st, copies, id) < |copies|
  }

  /** The first of the copies has been handled: what is left to do for the others. */
  lemma OneHandled(st: NodeState, copies: seq<Copy>, maxSize: nat, id: MessageId)
    requires maxSize >= 2 && copies != [] && InvWith(st, copies) && WillGo(st, copies, id)
    requires GoesAt(st, copies, id) > 0
    ensures var st' := OnData(st, copies[0].message, copies[0].source, maxSize);
      && InvWith(st', copies[1..]) && WillGo(st', copies[1..], id) && st.events <= st'.events
      && GoesAt(st', copies[1..], id) == GoesAt(st, copies, id) - 1
      && st'.streams[id.streamKey] == st.streams[id.streamKey]
  {
    var c := copies[0];
    assert copies == [Copy(c.message, c.source)] + copies[1..];
    DuplicateKeepsInv(st, c.message, c.source, maxSize, copies[1..]);
    DuplicateFrame(st, c, maxSize, id);
    DuplicateLetsGo(st, c, maxSize, id);
    DuplicateEvents(st, c, maxSize);
  }

  lemma PropagateOnlyAdds(st: NodeState, m: StreamMessage, source: Option<NodeId>, maxSize: nat)
    requires m.id.streamKey in st.streams
    ensures st.events <= Propagate(st, m, source, maxSize).events
  {
  }

  lemma DataOnlyAdds(st: NodeState, m: StreamMessage, source: Option<NodeId>, maxSize: nat)
    ensures st.events <= OnData(st, m, source, maxSize).events
  {
    PropagateOnlyAdds(Marking(st, m), m, source, maxSize);
    PropagateOnlyAdds(Logged(Marking(st, m), UnseenReceived(m.id)), m, source, maxSize);
  }

  lemma {:induction false} DrainOnlyAdds(st: NodeState, copies: seq<Copy>, maxSize: nat)
    ensures st.events <= OnDataAll(st, copies, maxSize).events
    decreases |copies|
  {
    if copies == [] {
    } else {
      DataOnlyAdds(st, copies[0].message, copies[0].source, maxSize);
      DrainOnlyAdds(OnData(st, copies[0].message, copies[0].source, maxSize), copies[1..], maxSize);
    }
  }

  lemma HandedToWider(a: seq<NodeEvent>, b: seq<NodeEvent>, c: seq<NodeEvent>, d: seq<NodeEvent>, id: MessageId,
                      to: set<NodeId>)
    requires a <= b && HandedTo(b, c, id, to) && c <= d
    ensures HandedTo(a, d, id, to)
  {
    var j :| |b| <= j < |c| && c[j] == Propagated(id, to);
    assert d[j] == Propagated(id, to);
  }

  lemma HandedOneByOne(a: seq<NodeEvent>, b: seq<NodeEvent>, c: seq<NodeEvent>, first: MessageId, second: MessageId,
                       to: set<NodeId>, next: set<NodeId>)
    requires HandedTo(a, b, first, to) && HandedTo(b, c, second, next)
    ensures HandedInOrder(a, c, first, second)
  {
    var i :| |a| <= i < |b| && b[i] == Propagated(first, to);
    assert c[i] == Propagated(first, to);
  }

  lemma HandedInOrderWider(a: seq<NodeEvent>, b: seq<NodeEvent>, c: seq<NodeEvent>, first: MessageId, second: MessageId)
    requires a <= b && HandedInOrder(b, c, first, second)
    ensures HandedInOrder(a, c, first, second)
  {
  }

  /** All outbound nodes but the source of the first copy that can go to one of them. */
  function GoesTo(st: NodeState, copies: seq<Copy>, id: MessageId): set<NodeId>
    requires WillGo(st, copies, id)
  {
    set x | x in st.streams[id.streamKey].outboundNodes && Some(x) != copies[GoesAt(st, copies, id)].source
  }

  lemma GoesToStays(st: NodeState, st': NodeState, copies: seq<Copy>, id: MessageId)
    requires WillGo(st, copies, id) && GoesAt(st, copies, id) > 0 && WillGo(st', copies[1..], id)
    requires st'.streams[id.streamKey] == st.streams[id.streamKey]
    ensures GoesTo(st', copies[1..], id) == GoesTo(st, copies, id)
  {
  }

  lemma FirstGoes(st: NodeState, copies: seq<Copy>, maxSize: nat, id: MessageId)
    requires maxSize >= 2 && InvWith(st, copies) && WillGo(st, copies, id) && GoesAt(st, copies, id) == 0
    ensures HandedTo(st.events, OnData(st, copies[0].message, copies[0].source, maxSize).events, id,
                     GoesTo(st, copies, id))
  {
    DuplicateEvents(st, copies[0], maxSize);
  }

  /** A held message is handed to all receivers but the node from which its first copy that can go came. */
  lemma {:induction false} DrainHandsOver(st: NodeState, copies: seq<Copy>, maxSize: nat, id: MessageId)
    requires maxSize >= 2 && InvWith(st, copies) && WillGo(st, copies, id)
    ensures HandedTo(st.events, OnDataAll(st, copies, maxSize).events, id, GoesTo(st, copies, id))
    decreases |copies|
  {
    var st', rest := OnData(st, copies[0].message, copies[0].source, maxSize), copies[1..];
    if GoesAt(st, copies, id) == 0 {
      FirstGoes(st, copies, maxSize, id);
      DrainOnlyAdds(st', rest, maxSize);
      HandedToWider(st.events, st.events, st'.events, OnDataAll(st', rest, maxSize).events, id, GoesTo(st, copies, id));
    } else {
      OneHandled(st, copies, maxSize, id);
      DrainHandsOver(st', rest, maxSize, id);
      GoesToStays(st, st', copies, id);
      HandedToWider(st.events, st'.events, OnDataAll(st', rest, maxSize).events, OnDataAll(st', rest, maxSize).events,
                    id, GoesTo(st, copies, id));
    }
  }

  lemma FirstBeforeOthers(st: NodeState, copies: seq<Copy>, maxSize: nat, a: MessageId, b: MessageId)
    requires maxSize >= 2 && InvWith(st, copies) && WillGo(st, copies, a) && WillGo(st, copies, b)
    requires 0 == GoesAt(st, copies, a) < GoesAt(st, copies, b)
    ensures HandedInOrder(st.events, OnDataAll(st, copies, maxSize).events, a, b)
  {
    var st', rest := OnData(st, copies[0].message, copies[0].source, maxSize), copies[1..];
    OneHandled(st, copies, maxSize, b);
    FirstGoes(st, copies, maxSize, a);
    DrainHandsOver(st', rest, maxSize, b);
    HandedOneByOne(st.events, st'.events, OnDataAll(st', rest, maxSize).events, a, b, GoesTo(st, copies, a),
                   GoesTo(st', rest, b));
  }

  /** Of two held messages, the one whose first copy that can go was put first is handed over first. */
  lemma {:induction false} DrainKeepsOrder(st: NodeState, copies: seq<Copy>, maxSize: nat, a: MessageId, b: MessageId)
    requires maxSize >= 2 && InvWith(st, copies) && WillGo(st, copies, a) && WillGo(st, copies, b)
    requires GoesAt(st, copies, a) < GoesAt(st, copies, b)
    ensures HandedInOrder(st.events, OnDataAll(st, copies, maxSize).events, a, b)
    decreases |copies|
  {
    if GoesAt(st, copies, a) == 0 {
      FirstBeforeOthers(st, copies, maxSize, a, b);
    } else {
      var st' := OnData(st, copies[0].message, copies[0].source, maxSize);
      OneHandled(st, copies, maxSize, a);
      OneHandled(st, copies, maxSize, b);
      DrainKeepsOrder(st', copies[1..], maxSize, a, b);
      HandedInOrderWider(st.events, st'.events, OnDataAll(st', copies[1..], maxSize).events, a, b);
    }
  }

  /**
   * When a node subscribes to a stream, a held message is handed to all outbound nodes, old and new, other
   * than the source of the first of its buffered copies that can go to one of them.
   */
  lemma SubscriptionHandsOver(st: NodeState, s: StreamKey, n: NodeId, maxSize: nat, id: MessageId)
    requires maxSize >= 2 && NodeInv(st) && s in st.streams && id.streamKey == s && id in st.held
    ensures var outbound, copies := st.streams[s].outboundNodes + {n}, BufferOf(st.buffer, s);
      var k := FirstToGo(copies, id, outbound);
      k < |copies| ==> HandedTo(st.events, Subscribed(st, s, n, maxSize).events, id,
                                set x | x in outbound && Some(x) != copies[k].source)
  {
    if s in st.buffer {
      var joined := st.(streams := WithNode(st.streams, s, n));
      var begun := joined.(buffer := joined.buffer - {s});
      if WillGo(begun, st.buffer[s], id) {
        DrainHandsOver(begun, st.buffer[s], maxSize, id);
      }
    }
  }

  /** And of two such messages, the one whose first copy that can go was buffered first is handed over first. */
  lemma SubscriptionKeepsOrder(st: NodeState, s: StreamKey, n: NodeId, maxSize: nat, a: MessageId, b: MessageId)
    requires maxSize >= 2 && NodeInv(st) && s in st.streams && a.streamKey == s == b.streamKey && {a, b} <= st.held
    requires var outbound, copies := st.streams[s].outboundNodes + {n}, BufferOf(st.buffer, s);
      FirstToGo(copies, a, outbound) < FirstToGo(copies, b, outbound) < |copies|
    ensures HandedInOrder(st.events, Subscribed(st, s, n, maxSize).events, a, b)
  {
    var joined := st.(streams := WithNode(st.streams, s, n));
    DrainKeepsOrder(joined.(buffer := joined.buffer - {s}), st.buffer[s], maxSize, a, b);
  }

  // ----- failing receivers -----

  /** How many sends to n have failed since the last one that succeeded. */
  function Streak(inputs: seq<Input>, n: NodeId): nat {
    if inputs == [] then 0
    else
      var before, last := Streak(inputs[..|inputs| - 1], n), inputs[|inputs| - 1];
      if last.SendResult? && last.n == n then (if last.ok then 0 else before + 1) else before
  }

  function FailuresOf(st: NodeState, n: NodeId): nat {
    if n in st.failures then st.failures[n] else 0
  }

  lemma {:induction false} DrainKeepsFailures(st: NodeState, copies: seq<Copy>, maxSize: nat)
    ensures OnDataAll(st, copies, maxSize).failures == st.failures
    decreases |copies|
  {
    if copies == [] {
    } else {
      DataKeepsFailures(st, copies[0].message, copies[0].source, maxSize);
      DrainKeepsFailures(OnData(st, copies[0].message, copies[0].source, maxSize), copies[1..], maxSize);
    }
  }

  lemma DataKeepsFailures(st: NodeState, m: StreamMessage, source: Option<NodeId>, maxSize: nat)
    ensures OnData(st, m, source, maxSize).failures == st.failures
  {
  }

  lemma OthersKeepFailures(st: NodeState, input: Input, maxSize: nat)
    requires !input.SendResult?
    ensures NextState(st, input, maxSize).failures == st.failures
  {
    match input
    case Data(m, source) => DataKeepsFailures(st, m, source, maxSize);
    case NodeSubscribed(s, n) =>
      if s in st.streams && s in st.buffer {
        var joined := st.(streams := WithNode(st.streams, s, n));
        DrainKeepsFailures(joined.(buffer := joined.buffer - {s}), joined.buffer[s], maxSize);
      }
    case _ =>
  }

  ghost predicate InNoStream(st: NodeState, n: NodeId) {
    forall s :: s in st.streams ==> n !in st.streams[s].inboundNodes && n !in st.streams[s].outboundNodes
  }

  lemma SendEndedFailures(st: NodeState, id: MessageId, m: NodeId, ok: bool, n: NodeId)
    ensures var count := FailuresOf(st, n) + 1;
      FailuresOf(SendEnded(st, id, m, ok), n) ==
      if m != n then FailuresOf(st, n) else if ok || count >= MAX_DELIVERY_FAILURES then 0 else count
  {
  }

  lemma SendEndedStreams(st: NodeState, id: MessageId, n: NodeId, ok: bool)
    ensures var st' := SendEnded(st, id, n, ok);
      if !ok && FailuresOf(st, n) + 1 >= MAX_DELIVERY_FAILURES then InNoStream(st', n) else st'.streams == st.streams
  {
  }

  lemma NextModulo(streak: nat)
    ensures (streak + 1) % 100 == if streak % 100 == 99 then 0 else streak % 100 + 1
  {
  }

  /** The failure count of a node is the length of its streak, wound back at each hundred. */
  lemma {:induction false} FailuresAreStreak(inputs: seq<Input>, maxSize: nat, n: NodeId)
    ensures FailuresOf(AfterRun(inputs, maxSize), n) == Streak(inputs, n) % MAX_DELIVERY_FAILURES
  {
    if inputs == [] {
    } else {
      var q, last := inputs[..|inputs| - 1], inputs[|inputs| - 1];
      FailuresAreStreak(q, maxSize, n);
      if last.SendResult? {
        SendEndedFailures(AfterRun(q, maxSize), last.id, last.n, last.ok, n);
        NextModulo(Streak(q, n));
      } else {
        OthersKeepFailures(AfterRun(q, maxSize), last, maxSize);
      }
    }
  }

  /** The result of a send takes the node out of all streams exactly at every hundredth failure in a row. */
  lemma EveryHundredthDisconnects(inputs: seq<Input>, maxSize: nat, id: MessageId, n: NodeId, ok: bool)
    ensures var before, after := AfterRun(inputs, maxSize), AfterRun(inputs + [SendResult(id, n, ok)], maxSize);
      var streak := Streak(inputs + [SendResult(id, n, ok)], n);
      if streak > 0 && streak % MAX_DELIVERY_FAILURES == 0 then InNoStream(after, n)
        else after.streams == before.streams
  {
    var all := inputs + [SendResult(id, n, ok)];
    assert all[..|all| - 1] == inputs;
    FailuresAreStreak(inputs, maxSize, n);
    SendEndedStreams(AfterRun(inputs, maxSize), id, n, ok);
    NextModulo(Streak(inputs, n));
  }
}
