/** Sending queued messages over one connection: attemptToFlushMessages of src/connection/Connection.ts. */
module Connections {
  import opened MessageQueues

  const MAX_SENDS_PER_FLUSH: nat := 10

  /** What one turn of the flush loop comes to. */
  datatype Turn = TooLong | Blocked | Sent | NotSent | Threw

  /** The item at the head has one failed try more; with MAX_TRIES of them it has failed and is gone. */
  predicate HeadTriedAgain(states: seq<ItemState>, states': seq<ItemState>, gone: nat, gone': nat) {
    && gone < |states| == |states'| && states' == states[gone := states'[gone]]
    && states'[gone].tries == states[gone].tries + 1
    && if states'[gone].tries == MAX_TRIES then gone' == gone + 1 && states'[gone].settled == [Rejected]
      else gone' == gone
  }

  predicate TurnEffect(turn: Turn, states: seq<ItemState>, states': seq<ItemState>, gone: nat, gone': nat) {
    match turn
    case Blocked => states' == states && gone' == gone
    case NotSent => HeadTriedAgain(states, states', gone, gone')
    case Threw => HeadTriedAgain(states, states', gone, gone')
    case TooLong =>
      gone < |states| == |states'| && states' == states[gone := states'[gone]] && gone' == gone + 1 &&
      states'[gone].settled == [Rejected] && states'[gone].tries == states[gone].tries
    case Sent =>
      gone < |states| == |states'| && states' == states[gone := states'[gone]] && gone' == gone + 1 &&
      states'[gone].settled == [Resolved] && states'[gone].tries == states[gone].tries
  }

  /** There were no more failed tries than the queue had left. */
  predicate NoExtraTries(states: seq<ItemState>, states': seq<ItemState>, gone: nat, gone': nat) {
    TotalTries(states', |states'|) - TotalTries(states, |states|) <= TriesLeft(states, gone) - TriesLeft(states', gone')
  }

  /** Every turn that does not block uses up a try, or an item with its tries. */
  lemma TurnsEnd(turn: Turn, states: seq<ItemState>, states': seq<ItemState>, gone: nat, gone': nat,
                 delivered: seq<nat>)
    requires StatesValid(states, gone, delivered) && TurnEffect(turn, states, states', gone, gone') && turn != Blocked
    ensures TriesLeft(states', gone') < TriesLeft(states, gone) && NoExtraTries(states, states', gone, gone')
  {
    TriesOfOne(states, gone, states'[gone], |states|);
    if gone' < |states| {
      assert states'[gone'].tries == if gone' == gone then states[gone].tries + 1 else 0;
    }
  }

  // ----- a whole flush -----

  /** What the data channel has to say in one turn: how full it is, and what comes of handing it a message. */
  datatype Answer = Answer(bufferedAmount: nat, threw: bool, sent: bool)

  /** The queue's items: what has become of each, how many are gone, and which were delivered. */
  datatype Line = Line(states: seq<ItemState>, gone: nat, delivered: seq<nat>)

  /** Which turn it is: the first that applies of too long, blocked, thrown, sent and not sent. */
  predicate Decided(turn: Turn, tooLong: bool, paused: bool, answer: Answer, bufferThresholdHigh: nat) {
    && (turn == TooLong <==> tooLong)
    && (turn == Blocked <==> !tooLong && (paused || answer.bufferedAmount >= bufferThresholdHigh))
    && (turn == Threw ==> answer.threw)
    && (turn == Sent ==> !answer.threw && answer.sent)
    && (turn == NotSent ==> !answer.threw && !answer.sent)
  }

  predicate TurnMade(turn: Turn, before: Line, after: Line) {
    && TurnEffect(turn, before.states, after.states, before.gone, after.gone)
    && after.delivered == before.delivered + if turn == Sent then [before.gone] else []
  }

  /** A turn that does not block uses up tries of the queue, and no more than it has. */
  predicate UsesTries(turn: Turn, before: Line, after: Line) {
    && (turn != Blocked ==> TriesLeft(after.states, after.gone) < TriesLeft(before.states, before.gone))
    && NoExtraTries(before.states, after.states, before.gone, after.gone)
  }

  /** A turn of the loop and the queue's items after it. */
  datatype Taken = Taken(turn: Turn, after: Line)

  function LineAfter(start: Line, log: seq<Taken>): Line {
    if log == [] then start else log[|log| - 1].after
  }

  /** The last turn has not ended the flush. */
  predicate GoesOn(log: seq<Taken>) {
    log != [] ==> log[|log| - 1].turn != Blocked && log[|log| - 1].turn != Threw
  }

  predicate EndsBlocked(log: seq<Taken>) {
    log != [] && log[|log| - 1].turn == Blocked
  }

  /**
   * The turns of a flush: the i-th one is decided by the i-th answer and the oldest item left; only after
   * one that neither blocks nor throws there is another, and only while fewer than MAX_SENDS_PER_FLUSH
   * items were delivered.
   */
  ghost predicate FlushRun(start: Line, log: seq<Taken>, long: set<nat>, paused: bool, answers: nat -> Answer,
                           bufferThresholdHigh: nat) {
    log != [] ==>
      var k := |log| - 1;
      var before := LineAfter(start, log[..k]);
      && FlushRun(start, log[..k], long, paused, answers, bufferThresholdHigh)
      && before.gone < |before.states| && |before.delivered| < |start.delivered| + MAX_SENDS_PER_FLUSH
      && GoesOn(log[..k])
      && Decided(log[k].turn, before.gone in long, paused, answers(k), bufferThresholdHigh)
      && TurnMade(log[k].turn, before, log[k].after) && UsesTries(log[k].turn, before, log[k].after)
  }

  lemma FlushRunMore(start: Line, log: seq<Taken>, long: set<nat>, paused: bool, answers: nat -> Answer,
                     bufferThresholdHigh: nat, turn: Turn, after: Line)
    requires FlushRun(start, log, long, paused, answers, bufferThresholdHigh)
    requires var before := LineAfter(start, log);
      && before.gone < |before.states| && |before.delivered| < |start.delivered| + MAX_SENDS_PER_FLUSH
      && Decided(turn, before.gone in long, paused, answers(|log|), bufferThresholdHigh)
      && TurnMade(turn, before, after) && UsesTries(turn, before, after)
    requires GoesOn(log)
    ensures FlushRun(start, log + [Taken(turn, after)], long, paused, answers, bufferThresholdHigh)
    ensures LineAfter(start, log + [Taken(turn, after)]) == after
  {
    assert (log + [Taken(turn, after)])[..|log|] == log;
  }

  lemma TurnUsesTries(turn: Turn, before: Line, after: Line)
    requires StatesValid(before.states, before.gone, before.delivered) && TurnMade(turn, before, after)
    ensures UsesTries(turn, before, after)
  {
    if turn != Blocked {
      TurnsEnd(turn, before.states, after.states, before.gone, after.gone, before.delivered);
    }
  }

  /** Settled items stay as they are, deliveries are added, and no more tries fail than the queue had left. */
  ghost predicate Flushed(start: Line, now: Line) {
    && start.gone <= now.gone && |start.states| == |now.states| && start.delivered <= now.delivered
    && (forall k :: 0 <= k < start.gone && k < |start.states| ==> now.states[k] == start.states[k])
    && NoExtraTries(start.states, now.states, start.gone, now.gone)
  }

  lemma {:induction false} RunIsFlushed(start: Line, log: seq<Taken>, long: set<nat>, paused: bool,
                                        answers: nat -> Answer, bufferThresholdHigh: nat)
    requires FlushRun(start, log, long, paused, answers, bufferThresholdHigh)
    ensures Flushed(start, LineAfter(start, log))
  {
    if log == [] {
    } else {
      RunIsFlushed(start, log[..|log| - 1], long, paused, answers, bufferThresholdHigh);
    }
  }

  function UpFrom(first: nat, n: nat): seq<nat> {
    seq(n, i => first + i)
  }

  /** The channel has room and takes every message. */
  ghost predicate TakesAll(answers: nat -> Answer, bufferThresholdHigh: nat) {
    forall i :: answers(i).bufferedAmount < bufferThresholdHigh && !answers(i).threw && answers(i).sent
  }

  /** Then every turn delivers the oldest item left. */
  lemma {:induction false} AllDelivered(start: Line, log: seq<Taken>, long: set<nat>, answers: nat -> Answer,
                                        bufferThresholdHigh: nat)
    requires FlushRun(start, log, long, false, answers, bufferThresholdHigh) && TakesAll(answers, bufferThresholdHigh)
    requires forall k :: start.gone <= k < |start.states| ==> k !in long
    ensures var after := LineAfter(start, log);
      && after.gone == start.gone + |log| && |after.states| == |start.states|
      && after.delivered == start.delivered + UpFrom(start.gone, |log|)
    ensures forall i :: 0 <= i < |log| ==> log[i].turn == Sent
  {
    if log == [] {
    } else {
      var k := |log| - 1;
      AllDelivered(start, log[..k], long, answers, bufferThresholdHigh);
      assert answers(k).sent;
      assert UpFrom(start.gone, k) + [start.gone + k] == UpFrom(start.gone, k + 1);
      assert forall i :: 0 <= i < k ==> log[i] == log[..k][i];
    }
  }

  /** Nothing more is to be done: the queue is empty, the last turn blocked or threw, or enough was delivered. */
  ghost predicate NoMore(start: Line, now: Line, log: seq<Taken>) {
    || now.gone == |now.states|
    || !GoesOn(log)
    || |now.delivered| == |start.delivered| + MAX_SENDS_PER_FLUSH
  }

  /** The oldest items were delivered, as many as may be in one flush. */
  ghost predicate OldestDelivered(start: Line, now: Line) {
    var waiting := |start.states| - start.gone;
    var n := if waiting <= MAX_SENDS_PER_FLUSH then waiting else MAX_SENDS_PER_FLUSH;
    n >= 0 && now.delivered == start.delivered + UpFrom(start.gone, n)
  }

  /** A channel that takes everything, and no item that is too long for it. */
  ghost predicate NothingInTheWay(start: Line, long: set<nat>, paused: bool, answers: nat -> Answer,
                                  bufferThresholdHigh: nat) {
    !paused && TakesAll(answers, bufferThresholdHigh) && forall k :: start.gone <= k < |start.states| ==> k !in long
  }

  lemma AllThatMayBeDelivered(start: Line, now: Line, log: seq<Taken>, long: set<nat>, paused: bool,
                              answers: nat -> Answer, bufferThresholdHigh: nat)
    requires FlushRun(start, log, long, paused, answers, bufferThresholdHigh) && now == LineAfter(start, log)
    requires NoMore(start, now, log)
    requires |now.delivered| <= |start.delivered| + MAX_SENDS_PER_FLUSH && now.gone <= |now.states|
    ensures NothingInTheWay(start, long, paused, answers, bufferThresholdHigh) ==> OldestDelivered(start, now)
  {
    if NothingInTheWay(start, long, paused, answers, bufferThresholdHigh) {
      AllDelivered(start, log, long, answers, bufferThresholdHigh);
    }
  }

  class Connection {
    const messageQueue: MessageQueue
    const maxMessageSize: nat
    const bufferThresholdHigh: nat
    var isFinished: bool
    var dataChannelPresent: bool
    var paused: bool
    /** setFlushRef has been called: another flush follows at once. */
    var flushRefSet: bool
    /** flushTimeoutRef is set: another flush follows after flushRetryTimeout. */
    var flushTimeoutSet: bool

    ghost predicate Valid()
      reads this, messageQueue, messageQueue.added
    {
      messageQueue.Valid()
    }

    constructor (queueSize: nat, maxMessageSize: nat, bufferThresholdHigh: nat)
      ensures Valid() && messageQueue.added == [] && messageQueue.maxSize == queueSize && !paused
      ensures this.maxMessageSize == maxMessageSize && this.bufferThresholdHigh == bufferThresholdHigh
    {
      messageQueue := new MessageQueue(queueSize);
      this.maxMessageSize, this.bufferThresholdHigh := maxMessageSize, bufferThresholdHigh;
      isFinished, dataChannelPresent, paused, flushRefSet, flushTimeoutSet := false, false, false, false, false;
    }

    method ProcessFailedMessage()
      requires messageQueue.Valid() && messageQueue.heap != {}
      modifies this`flushTimeoutSet, messageQueue, messageQueue.heap
      ensures messageQueue.Valid() && flushTimeoutSet
      ensures messageQueue.added == old(messageQueue.added) && messageQueue.delivered == old(messageQueue.delivered)
      ensures HeadTriedAgain(old(messageQueue.states), messageQueue.states, old(messageQueue.gone), messageQueue.gone)
    {
      messageQueue.RetryOldest();
      flushTimeoutSet := true;
    }

    ghost function Items(): Line
      reads messageQueue
    {
      Line(messageQueue.states, messageQueue.gone, messageQueue.delivered)
    }

    /** The items whose message the channel cannot take. */
    ghost function Long(): set<nat>
      reads messageQueue
    {
      set k | 0 <= k < |messageQueue.added| && |messageQueue.added[k].message| > maxMessageSize
    }

    /** One turn of the loop, with what the data channel answers in it. */
    method FlushTurn(answer: Answer) returns (turn: Turn)
      requires Valid() && messageQueue.heap != {}
      modifies this`paused, this`flushTimeoutSet, messageQueue, messageQueue.heap
      ensures Valid() && messageQueue.added == old(messageQueue.added)
      ensures Decided(turn, old(messageQueue.gone) in old(Long()), old(paused), answer, bufferThresholdHigh)
      ensures TurnMade(turn, old(Items()), Items())
      ensures paused == (old(paused) || turn == Blocked)
      ensures flushTimeoutSet == (old(flushTimeoutSet) || turn == Threw || turn == NotSent)
    {
      var queueItem := messageQueue.Peek();
      if queueItem.failed {
        // Queued items have not failed.
        assert false;
      } else if |queueItem.message| > maxMessageSize {
        messageQueue.FailOldest();
        return TooLong;
      }
      if paused || answer.bufferedAmount >= bufferThresholdHigh {
        paused := true;
        return Blocked;
      }
      if answer.threw {
        ProcessFailedMessage();
        return Threw;
      }
      if answer.sent {
        messageQueue.DeliverOldest();
        return Sent;
      }
      ProcessFailedMessage();
      return NotSent;
    }

    /** A flush that began with the items in `start` has made the turns of `log` and delivered n items. */
    ghost predicate UnderWay(start: Line, log: seq<Taken>, long: set<nat>, wasPaused: bool, answers: nat -> Answer,
                             n: nat)
      reads this, messageQueue, messageQueue.added
    {
      && Valid() && Long() == long && Items() == LineAfter(start, log)
      && FlushRun(start, log, long, wasPaused, answers, bufferThresholdHigh)
      && |messageQueue.delivered| == |start.delivered| + n && n <= MAX_SENDS_PER_FLUSH
    }

    /** One turn of a flush; n is the number of items delivered so far. */
    method NextTurn(turns: nat, answers: nat -> Answer, ghost start: Line, ghost log: seq<Taken>, ghost n: nat)
      returns (turn: Turn, ghost log': seq<Taken>)
      requires UnderWay(start, log, Long(), paused, answers, n) && n < MAX_SENDS_PER_FLUSH
      requires messageQueue.heap != {} && turns == |log| && GoesOn(log)
      modifies this`paused, this`flushTimeoutSet, messageQueue, messageQueue.heap
      ensures UnderWay(start, log', old(Long()), old(paused), answers, n + if turn == Sent then 1 else 0)
      ensures messageQueue.added == old(messageQueue.added) && messageQueue.heap <= old(messageQueue.heap)
      ensures |log'| == |log| + 1 && (GoesOn(log') <==> turn != Blocked && turn != Threw)
      ensures EndsBlocked(log') <==> turn == Blocked
      ensures turn != Blocked ==>
        TriesLeft(messageQueue.states, messageQueue.gone) < old(TriesLeft(messageQueue.states, messageQueue.gone))
      ensures paused == (old(paused) || turn == Blocked)
      ensures turn == Threw ==> flushTimeoutSet
    {
      ghost var now, heap := Items(), messageQueue.heap;
      turn := FlushTurn(answers(turns));
      RestShrinks(heap, messageQueue.heap, messageQueue.added, now.gone, messageQueue.gone);
      TurnUsesTries(turn, now, Items());
      FlushRunMore(start, log, old(Long()), old(paused), answers, bufferThresholdHigh, turn, Items());
      log' := log + [Taken(turn, Items())];
    }

    /** The body of the loop; `done` if the loop is left in it. */
    method LoopBody(numOfSuccessSends: nat, turns: nat, answers: nat -> Answer, ghost start: Line,
                    ghost log: seq<Taken>)
      returns (done: bool, sends: nat, turns': nat, ghost log': seq<Taken>)
      requires UnderWay(start, log, Long(), paused, answers, numOfSuccessSends)
      requires messageQueue.heap != {} && turns == |log| && GoesOn(log)
      modifies this`paused, this`flushRefSet, this`flushTimeoutSet, messageQueue, messageQueue.heap
      ensures UnderWay(start, log', old(Long()), old(paused), answers, sends)
      ensures messageQueue.added == old(messageQueue.added) && turns' == |log'|
      ensures messageQueue.heap <= old(messageQueue.heap)
      ensures isFinished == old(isFinished) && dataChannelPresent == old(dataChannelPresent)
      ensures paused == (old(paused) || EndsBlocked(log')) && (!done ==> GoesOn(log'))
      ensures !done ==>
        TriesLeft(messageQueue.states, messageQueue.gone) < old(TriesLeft(messageQueue.states, messageQueue.gone))
      ensures done ==>
        (!GoesOn(log') && (paused || flushTimeoutSet)) || (sends == MAX_SENDS_PER_FLUSH && flushRefSet)
    {
      sends, turns', log' := numOfSuccessSends, turns, log;
      if numOfSuccessSends >= MAX_SENDS_PER_FLUSH {
        flushRefSet := true;
        done := true;
      } else {
        var turn;
        turn, log' := NextTurn(turns, answers, start, log, numOfSuccessSends);
        turns' := turns + 1;
        sends := numOfSuccessSends + if turn == Sent then 1 else 0;
        done := turn == Blocked || turn == Threw;
      }
    }

    /** The loop of attemptToFlushMessages. */
    method FlushLoop(answers: nat -> Answer) returns (ghost log: seq<Taken>, sends: nat)
      requires Valid()
      modifies this`paused, this`flushRefSet, this`flushTimeoutSet, messageQueue, messageQueue.heap
      ensures UnderWay(old(Items()), log, old(Long()), old(paused), answers, sends)
      ensures messageQueue.added == old(messageQueue.added)
      ensures isFinished || !dataChannelPresent ==> log == []
      ensures paused == (old(paused) || EndsBlocked(log))
      ensures !isFinished && dataChannelPresent && messageQueue.heap != {} ==>
        (!GoesOn(log) && (paused || flushTimeoutSet)) || (sends == MAX_SENDS_PER_FLUSH && flushRefSet)
    {
      var turns := 0;
      sends, log := 0, [];
      ghost var start, long := Items(), Long();
      while !isFinished && messageQueue.heap != {} && dataChannelPresent
        invariant UnderWay(start, log, long, paused, answers, sends)
        invariant messageQueue.added == old(messageQueue.added) && messageQueue.heap <= old(messageQueue.heap)
        invariant paused == old(paused) && turns == |log| && GoesOn(log)
        invariant isFinished == old(isFinished) && dataChannelPresent == old(dataChannelPresent)
        invariant log != [] ==> !old(isFinished) && old(dataChannelPresent)
        decreases TriesLeft(messageQueue.states, messageQueue.gone)
      {
        var done;
        done, sends, turns, log := LoopBody(sends, turns, answers, start, log);
        if done {
          break;
        }
      }
    }

    /**
     * The loop ends, after at most MAX_SENDS_PER_FLUSH deliveries and no more failed tries than the
     * queue had left, and not before it has to: it is finished or has no channel, the queue is empty, the
     * last turn was blocked or threw, or that many were delivered. A channel that takes everything gets the
     * oldest items, as many as that, in order. If messages are left behind, the connection is paused or
     * another flush is to come.
     */
    method AttemptToFlushMessages(answers: nat -> Answer) returns (ghost log: seq<Taken>)
      requires Valid()
      modifies this`paused, this`flushRefSet, this`flushTimeoutSet, messageQueue, messageQueue.heap
      ensures Valid() && messageQueue.added == old(messageQueue.added)
      ensures FlushRun(old(Items()), log, old(Long()), old(paused), answers, bufferThresholdHigh)
      ensures Items() == LineAfter(old(Items()), log) && Flushed(old(Items()), Items())
      ensures |messageQueue.delivered| <= |old(messageQueue.delivered)| + MAX_SENDS_PER_FLUSH
      ensures if isFinished || !dataChannelPresent then log == [] else NoMore(old(Items()), Items(), log)
      ensures !isFinished && dataChannelPresent &&
              NothingInTheWay(old(Items()), old(Long()), old(paused), answers, bufferThresholdHigh) ==>
              OldestDelivered(old(Items()), Items())
      ensures paused == (old(paused) || EndsBlocked(log))
      ensures messageQueue.heap != {} && !isFinished && dataChannelPresent ==> paused || flushRefSet || flushTimeoutSet
    {
      ghost var n;
      log, n := FlushLoop(answers);
      RunIsFlushed(old(Items()), log, old(Long()), old(paused), answers, bufferThresholdHigh);
      if !isFinished && dataChannelPresent {
        AllThatMayBeDelivered(old(Items()), Items(), log, old(Long()), old(paused), answers, bufferThresholdHigh);
      }
    }
  }
}
