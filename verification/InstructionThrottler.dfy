/** One instruction handler at a time per stream, the latest instruction next: src/logic/InstructionThrottler.ts. */
module InstructionThrottlers {
  import opened Identifiers
  import opened Options

  datatype InstructionMessage = InstructionMessage(streamKey: StreamKey, nodeIds: set<NodeId>, counter: int)

  datatype Queued = Queued(instructionMessage: InstructionMessage, trackerId: TrackerId)

  /**
   * What the throttler has to do with one stream. `accepted` and `handled` are the instructions let
   * through and those handed to the handler, so far; `inFlight` has the positions in `handled` of the
   * handler calls that have not settled.
   */
  datatype Throttle = Throttle(
    queue: Option<Queued>,
    counter: Option<int>,
    handling: bool,
    accepted: seq<Queued>,
    handled: seq<Queued>,
    inFlight: set<nat>)

  const UNTOUCHED := Throttle(None, None, false, [], [], {})

  /** A stored counter of 0 is as good as none. */
  predicate Accepts(counter: Option<int>, c: int) {
    counter == None || counter.value == 0 || counter.value <= c
  }

  /** invokeHandleFnWithLock up to the point where it waits for the handler. */
  function Invoke(t: Throttle): Throttle {
    if t.queue == None then t.(handling := false)
    else t.(handling := true, queue := None, handled := t.handled + [t.queue.value],
            inFlight := t.inFlight + {|t.handled|})
  }

  function Added(t: Throttle, q: Queued): Throttle {
    if !Accepts(t.counter, q.instructionMessage.counter) then t
    else
      var t' := t.(counter := Some(q.instructionMessage.counter), queue := Some(q), accepted := t.accepted + [q]);
      if t'.handling then t' else Invoke(t')
  }

  /** The handler call at position i settles, whether it succeeds or throws. */
  function AfterSettling(t: Throttle, i: nat): Throttle {
    Invoke(t.(inFlight := t.inFlight - {i}))
  }

  // ----- what every run keeps -----

  ghost predicate NonDecreasing(log: seq<Queued>) {
    forall i, j :: 0 <= i < j < |log| ==> log[i].instructionMessage.counter <= log[j].instructionMessage.counter
  }

  function Last(log: seq<Queued>): Option<Queued> {
    if log == [] then None else Some(log[|log| - 1])
  }

  predicate NotAbove(a: Option<Queued>, b: Option<Queued>) {
    a == None || (b.Some? && a.value.instructionMessage.counter <= b.value.instructionMessage.counter)
  }

  /** At most the latest handler call is in flight; what was accepted last is queued, or was handled last. */
  ghost predicate OneAtATime(t: Throttle) {
    && t.inFlight == (if t.handling then {|t.handled| - 1} else {}) && (t.handling ==> t.handled != [])
    && (t.queue.Some? ==> t.handling)
    && Last(t.accepted) == if t.queue.Some? then t.queue else Last(t.handled)
  }

  lemma AddedOneAtATime(t: Throttle, q: Queued)
    requires OneAtATime(t)
    ensures OneAtATime(Added(t, q))
  {
  }

  lemma SettledOneAtATime(t: Throttle, i: nat)
    requires OneAtATime(t) && i in t.inFlight
    ensures OneAtATime(AfterSettling(t, i))
  {
  }

  /** Without the treatment of 0, an instruction is let through iff it is not older than the last one let through. */
  lemma AcceptsIffNotOlder(counter: int, c: int)
    ensures (Accepts(Some(counter), c) <==> counter <= c) <==> (counter != 0 || c >= 0)
  {
  }

  // ----- runs -----

  datatype Event = Arrived(q: Queued) | HandlerSettled(i: nat)

  /** Handlers settle once, and only handlers in flight do. */
  predicate Possible(events: seq<Event>)
    decreases |events|
  {
    events == [] ||
    (Possible(events[..|events| - 1]) &&
     match events[|events| - 1]
     case Arrived(q) => true
     case HandlerSettled(i) => i in AfterEvents(events[..|events| - 1]).inFlight)
  }

  function AfterEvents(events: seq<Event>): Throttle
    decreases |events|
  {
    if events == [] then UNTOUCHED
    else
      var before := AfterEvents(events[..|events| - 1]);
      match events[|events| - 1]
      case Arrived(q) => Added(before, q)
      case HandlerSettled(i) => AfterSettling(before, i)
  }

  lemma {:induction false} OneHandlerAtATime(events: seq<Event>)
    requires Possible(events)
    ensures OneAtATime(AfterEvents(events))
  {
    if events == [] {
    } else {
      OneHandlerAtATime(events[..|events| - 1]);
      match events[|events| - 1]
      case Arrived(q) => AddedOneAtATime(AfterEvents(events[..|events| - 1]), q);
      case HandlerSettled(i) => SettledOneAtATime(AfterEvents(events[..|events| - 1]), i);
    }
  }

  // ----- order -----

  /** The instructions that arrived, in order. */
  function ArrivalsOf(events: seq<Event>): seq<Queued> {
    if events == [] then []
    else
      var before := ArrivalsOf(events[..|events| - 1]);
      match events[|events| - 1]
      case Arrived(q) => before + [q]
      case HandlerSettled(_) => before
  }

  /** The counter that is stored when all of qs have arrived, handlers or not. */
  function StoredAfter(qs: seq<Queued>): Option<int> {
    if qs == [] then None
    else
      var before, c := StoredAfter(qs[..|qs| - 1]), qs[|qs| - 1].instructionMessage.counter;
      if Accepts(before, c) then Some(c) else before
  }

  /** The instructions that are let through. */
  function LetThrough(qs: seq<Queued>): seq<Queued> {
    if qs == [] then []
    else
      var before, q := qs[..|qs| - 1], qs[|qs| - 1];
      if Accepts(StoredAfter(before), q.instructionMessage.counter) then LetThrough(before) + [q]
        else LetThrough(before)
  }

  /** No negative counter arrives while 0 is stored. */
  ghost predicate NoNegativeOnZero(qs: seq<Queued>) {
    forall k :: 0 <= k < |qs| && StoredAfter(qs[..k]) == Some(0) ==> qs[k].instructionMessage.counter >= 0
  }

  lemma AppendedArrivals(qs: seq<Queued>, q: Queued)
    ensures (qs + [q])[..|qs + [q]| - 1] == qs && (qs + [q])[|qs + [q]| - 1] == q
  {
  }

  /** What is let through depends on the arrivals alone, not on when handlers end. */
  lemma {:induction false} AcceptedFromArrivals(events: seq<Event>)
    ensures AfterEvents(events).accepted == LetThrough(ArrivalsOf(events))
    ensures AfterEvents(events).counter == StoredAfter(ArrivalsOf(events))
  {
    if events == [] {
    } else {
      var q := events[..|events| - 1];
      AcceptedFromArrivals(q);
      match events[|events| - 1]
      case Arrived(x) => AppendedArrivals(ArrivalsOf(q), x);
      case HandlerSettled(i) =>
    }
  }

  /** The stored counter is that of the last instruction let through. */
  lemma {:induction false} StoredIsLast(qs: seq<Queued>)
    ensures StoredAfter(qs) ==
      match Last(LetThrough(qs)) case None => None case Some(q) => Some(q.instructionMessage.counter)
  {
    if qs == [] {
    } else {
      StoredIsLast(qs[..|qs| - 1]);
    }
  }

  lemma AppendedIff(log: seq<Queued>, q: Queued)
    ensures NonDecreasing(log + [q]) <==> NonDecreasing(log) && NotAbove(Last(log), Some(q))
  {
    var all := log + [q];
    if NonDecreasing(all) {
      forall i, j | 0 <= i < j < |log| ensures log[i].instructionMessage.counter <= log[j].instructionMessage.counter {
        assert all[i] == log[i] && all[j] == log[j];
      }
      assert log == [] || (all[|log| - 1] == log[|log| - 1] && all[|log|] == q);
    }
  }

  lemma NoNegativeOnZeroLast(qs: seq<Queued>)
    requires qs != []
    ensures var q, last := qs[..|qs| - 1], qs[|qs| - 1];
      NoNegativeOnZero(qs) <==>
      NoNegativeOnZero(q) && (StoredAfter(q) == Some(0) ==> last.instructionMessage.counter >= 0)
  {
    var q := qs[..|qs| - 1];
    assert forall k :: 0 <= k < |q| ==> qs[..k] == q[..k] && qs[k] == q[k];
  }

  /** What is let through is not older than the one before, except for a negative counter after 0. */
  lemma NotAboveIff(qs: seq<Queued>, q: Queued)
    requires Accepts(StoredAfter(qs), q.instructionMessage.counter)
    ensures NotAbove(Last(LetThrough(qs)), Some(q)) <==>
            (StoredAfter(qs) == Some(0) ==> q.instructionMessage.counter >= 0)
  {
    StoredIsLast(qs);
  }

  lemma RefusedOnZero(counter: Option<int>, c: int)
    requires !Accepts(counter, c)
    ensures counter != Some(0)
  {
  }

  /**
   * Instructions are let through in the order of their counters if and only if no negative counter
   * arrives while 0 is stored.
   */
  lemma {:induction false} LetThroughInOrderIff(qs: seq<Queued>)
    ensures NonDecreasing(LetThrough(qs)) <==> NoNegativeOnZero(qs)
  {
    if qs == [] {
    } else {
      var q, last := qs[..|qs| - 1], qs[|qs| - 1];
      LetThroughInOrderIff(q);
      NoNegativeOnZeroLast(qs);
      if Accepts(StoredAfter(q), last.instructionMessage.counter) {
        NotAboveIff(q, last);
        AppendedIff(LetThrough(q), last);
      } else {
        RefusedOnZero(StoredAfter(q), last.instructionMessage.counter);
      }
    }
  }

  /** The same of a run, with the stored counter as it is when each instruction arrives. */
  lemma AcceptedInOrderIff(events: seq<Event>)
    ensures NonDecreasing(AfterEvents(events).accepted) <==> NoNegativeOnZero(ArrivalsOf(events))
  {
    AcceptedFromArrivals(events);
    LetThroughInOrderIff(ArrivalsOf(events));
  }

  ghost predicate HandledFollows(t: Throttle) {
    NonDecreasing(t.handled) && NotAbove(Last(t.handled), Last(t.accepted))
  }

  lemma InvokeFollows(t: Throttle)
    requires HandledFollows(t) && (t.queue.Some? ==> Last(t.accepted) == t.queue)
    ensures HandledFollows(Invoke(t))
  {
    if t.queue.Some? {
      AppendedIff(t.handled, t.queue.value);
    }
  }

  lemma AddedFollows(t: Throttle, q: Queued)
    requires OneAtATime(t) && HandledFollows(t) && NonDecreasing(Added(t, q).accepted)
    ensures HandledFollows(Added(t, q)) && NonDecreasing(t.accepted)
  {
    if Accepts(t.counter, q.instructionMessage.counter) {
      AppendedIff(t.accepted, q);
      InvokeFollows(t.(counter := Some(q.instructionMessage.counter), queue := Some(q), accepted := t.accepted + [q]));
    }
  }

  lemma AddedAccepted(t: Throttle, q: Queued)
    requires NonDecreasing(Added(t, q).accepted)
    ensures NonDecreasing(t.accepted)
  {
    AppendedIff(t.accepted, q);
  }

  lemma {:induction false} FollowsWhenInOrder(events: seq<Event>)
    requires Possible(events) && NonDecreasing(AfterEvents(events).accepted)
    ensures HandledFollows(AfterEvents(events))
  {
    if events == [] {
    } else {
      var q := events[..|events| - 1];
      var before := AfterEvents(q);
      OneHandlerAtATime(q);
      match events[|events| - 1]
      case Arrived(x) =>
        AddedAccepted(before, x);
        FollowsWhenInOrder(q);
        AddedFollows(before, x);
      case HandlerSettled(i) =>
        FollowsWhenInOrder(q);
        InvokeFollows(before.(inFlight := before.inFlight - {i}));
    }
  }

  /** Every handler settles before the next instruction arrives. */
  function Eager(qs: seq<Queued>): seq<Event> {
    if qs == [] then []
    else
      var before, q := qs[..|qs| - 1], qs[|qs| - 1];
      var arrived := Eager(before) + [Arrived(q)];
      if Accepts(StoredAfter(before), q.instructionMessage.counter)
      then arrived + [HandlerSettled(|LetThrough(before)|)] else arrived
  }

  lemma LastArrived(events: seq<Event>, q: Queued)
    requires Possible(events)
    ensures var all := events + [Arrived(q)];
      Possible(all) && AfterEvents(all) == Added(AfterEvents(events), q) && ArrivalsOf(all) == ArrivalsOf(events) + [q]
  {
    assert (events + [Arrived(q)])[..|events|] == events;
  }

  lemma LastSettled(events: seq<Event>, i: nat)
    requires Possible(events) && i in AfterEvents(events).inFlight
    ensures var all := events + [HandlerSettled(i)];
      Possible(all) && AfterEvents(all) == AfterSettling(AfterEvents(events), i) &&
        ArrivalsOf(all) == ArrivalsOf(events)
  {
    assert (events + [HandlerSettled(i)])[..|events|] == events;
  }

  /** All that is let through has been handled, and no handler runs. */
  ghost predicate AllHandled(events: seq<Event>, qs: seq<Queued>) {
    && Possible(events) && ArrivalsOf(events) == qs
    && AfterEvents(events) == Throttle(None, StoredAfter(qs), false, LetThrough(qs), LetThrough(qs), {})
  }

  lemma RefusedIsHandled(events: seq<Event>, qs: seq<Queued>, q: Queued)
    requires AllHandled(events, qs) && !Accepts(StoredAfter(qs), q.instructionMessage.counter)
    ensures AllHandled(events + [Arrived(q)], qs + [q])
  {
    AppendedArrivals(qs, q);
    LastArrived(events, q);
  }

  lemma LetThroughIsHandled(events: seq<Event>, qs: seq<Queued>, q: Queued)
    requires AllHandled(events, qs) && Accepts(StoredAfter(qs), q.instructionMessage.counter)
    ensures AllHandled(events + [Arrived(q)] + [HandlerSettled(|LetThrough(qs)|)], qs + [q])
  {
    AppendedArrivals(qs, q);
    LastArrived(events, q);
    LastSettled(events + [Arrived(q)], |LetThrough(qs)|);
  }

  lemma {:induction false} EagerHandlesAll(qs: seq<Queued>)
    ensures AllHandled(Eager(qs), qs)
  {
    if qs == [] {
    } else {
      var before, q := qs[..|qs| - 1], qs[|qs| - 1];
      EagerHandlesAll(before);
      assert before + [q] == qs;
      if Accepts(StoredAfter(before), q.instructionMessage.counter) {
        LetThroughIsHandled(Eager(before), before, q);
      } else {
        RefusedIsHandled(Eager(before), before, q);
      }
    }
  }

  /**
   * For a sequence of arrivals, instructions are handled in the order of their counters, whenever the
   * handlers may end, if and only if no negative counter arrives while 0 is stored.
   */
  lemma HandledInOrder(qs: seq<Queued>)
    ensures
      (forall events :: Possible(events) && ArrivalsOf(events) == qs ==> NonDecreasing(AfterEvents(events).handled))
      <==> NoNegativeOnZero(qs)
  {
    if NoNegativeOnZero(qs) {
      forall events | Possible(events) && ArrivalsOf(events) == qs ensures NonDecreasing(AfterEvents(events).handled) {
        AcceptedInOrderIff(events);
        FollowsWhenInOrder(events);
      }
    } else {
      EagerHandlesAll(qs);
      LetThroughInOrderIff(qs);
      assert AfterEvents(Eager(qs)).handled == LetThrough(qs);
    }
  }

  /** When no handler runs, nothing is queued and the instruction handled last is the one accepted last. */
  lemma IdleMeansUpToDate(events: seq<Event>)
    requires Possible(events) && !AfterEvents(events).handling
    ensures var t := AfterEvents(events); t.queue == None && t.inFlight == {} && Last(t.handled) == Last(t.accepted)
  {
    OneHandlerAtATime(events);
  }

  // ----- what is accepted, in terms of the arrivals alone -----

  predicate IsNewest(before: seq<Queued>, q: Queued) {
    forall j :: 0 <= j < |before| ==> before[j].instructionMessage.counter <= q.instructionMessage.counter
  }

  /** The instructions that are not older than any that arrived before them. */
  function NewestOf(qs: seq<Queued>): seq<Queued> {
    if qs == [] then []
    else
      var before, q := qs[..|qs| - 1], qs[|qs| - 1];
      if IsNewest(before, q) then NewestOf(before) + [q] else NewestOf(before)
  }

  predicate IsGreatest(qs: seq<Queued>, c: int) {
    && (exists j :: 0 <= j < |qs| && qs[j].instructionMessage.counter == c)
    && (forall j :: 0 <= j < |qs| ==> qs[j].instructionMessage.counter <= c)
  }

  /** No negative counter arrives while 0 is the greatest that has arrived. */
  predicate NoNegativeAfterZero(qs: seq<Queued>) {
    forall k :: 0 <= k < |qs| && IsGreatest(qs[..k], 0) ==> qs[k].instructionMessage.counter >= 0
  }

  lemma NoNegativeAfterZeroLast(qs: seq<Queued>)
    requires qs != []
    ensures var q, last := qs[..|qs| - 1], qs[|qs| - 1];
      NoNegativeAfterZero(qs) <==>
      NoNegativeAfterZero(q) && (IsGreatest(q, 0) ==> last.instructionMessage.counter >= 0)
  {
    var q := qs[..|qs| - 1];
    assert forall k :: 0 <= k < |q| ==> qs[..k] == q[..k] && qs[k] == q[k];
  }

  /** The stored counter is one that has arrived. */
  lemma {:induction false} StoredHasArrived(qs: seq<Queued>)
    ensures qs == [] <==> StoredAfter(qs) == None
    ensures qs != [] ==> exists j :: 0 <= j < |qs| && qs[j].instructionMessage.counter == StoredAfter(qs).value
  {
    if qs == [] {
    } else {
      var before := qs[..|qs| - 1];
      StoredHasArrived(before);
      if StoredAfter(qs) == StoredAfter(before) && before != [] {
        var j :| 0 <= j < |before| && before[j].instructionMessage.counter == StoredAfter(before).value;
        assert qs[j] == before[j];
      } else {
        assert qs[|qs| - 1].instructionMessage.counter == StoredAfter(qs).value;
      }
    }
  }

  lemma GreatestMore(qs: seq<Queued>, q: Queued, c: int)
    requires qs == [] || IsGreatest(qs, c)
    ensures IsNewest(qs, q) <==> qs == [] || c <= q.instructionMessage.counter
    ensures IsNewest(qs, q) ==> IsGreatest(qs + [q], q.instructionMessage.counter)
    ensures !IsNewest(qs, q) ==> IsGreatest(qs + [q], c)
  {
    var all := qs + [q];
    assert all[|qs|] == q;
    if qs != [] {
      var j :| 0 <= j < |qs| && qs[j].instructionMessage.counter == c;
      assert all[j] == qs[j];
    }
  }

  /** Nothing new is refused; all that is accepted is new, as long as no negative counter comes after 0. */
  ghost predicate NewestAccepted(qs: seq<Queued>) {
    && (qs != [] ==> StoredAfter(qs).Some?)
    && if NoNegativeAfterZero(qs)
       then LetThrough(qs) == NewestOf(qs) && (qs != [] ==> IsGreatest(qs, StoredAfter(qs).value))
       else |LetThrough(qs)| > |NewestOf(qs)|
  }

  /** A stored counter that has arrived is not above one that is new. */
  lemma NewIsNotRefused(before: seq<Queued>, q: Queued)
    requires IsNewest(before, q)
    ensures Accepts(StoredAfter(before), q.instructionMessage.counter)
  {
    StoredHasArrived(before);
  }

  lemma FirstLetThrough(q: Queued)
    ensures NewestAccepted([q])
  {
    assert [q][..0] == [];
    assert [q][0].instructionMessage.counter == q.instructionMessage.counter;
    NoNegativeAfterZeroLast([q]);
    assert IsNewest([], q);
  }

  lemma NextInOrder(before: seq<Queued>, q: Queued)
    requires before != [] && NewestAccepted(before) && NoNegativeAfterZero(before)
    ensures NewestAccepted(before + [q])
  {
    AppendedArrivals(before, q);
    NoNegativeAfterZeroLast(before + [q]);
    GreatestMore(before, q, StoredAfter(before).value);
  }

  lemma NextOutOfOrder(before: seq<Queued>, q: Queued)
    requires before != [] && NewestAccepted(before) && !NoNegativeAfterZero(before)
    ensures NewestAccepted(before + [q])
  {
    AppendedArrivals(before, q);
    NoNegativeAfterZeroLast(before + [q]);
    if IsNewest(before, q) {
      NewIsNotRefused(before, q);
    }
  }

  lemma {:induction false} NewestLetThrough(qs: seq<Queued>)
    ensures NewestAccepted(qs)
  {
    if qs == [] {
    } else {
      var before, q := qs[..|qs| - 1], qs[|qs| - 1];
      assert before + [q] == qs;
      NewestLetThrough(before);
      if before == [] {
        FirstLetThrough(q);
      } else if NoNegativeAfterZero(before) {
        NextInOrder(before, q);
      } else {
        NextOutOfOrder(before, q);
      }
    }
  }

  /**
   * The instructions accepted in a run are exactly those that are not older than any earlier arrival, if
   * and only if no negative counter arrives while the greatest so far is 0; so always with counters from 0 up.
   */
  lemma AcceptedAreNewestIff(events: seq<Event>)
    ensures AfterEvents(events).accepted == NewestOf(ArrivalsOf(events)) <==> NoNegativeAfterZero(ArrivalsOf(events))
  {
    AcceptedFromArrivals(events);
    NewestLetThrough(ArrivalsOf(events));
  }

  /** An arrival, and what becomes of it. */
  lemma AcceptedIffNewest(events: seq<Event>, q: Queued)
    requires NoNegativeAfterZero(ArrivalsOf(events) + [q])
    ensures AfterEvents(events + [Arrived(q)]).accepted ==
            AfterEvents(events).accepted + if IsNewest(ArrivalsOf(events), q) then [q] else []
  {
    var all, qs := events + [Arrived(q)], ArrivalsOf(events);
    assert all[..|all| - 1] == events;
    AppendedArrivals(qs, q);
    NoNegativeAfterZeroLast(qs + [q]);
    AcceptedAreNewestIff(events);
    AcceptedAreNewestIff(all);
  }

  /** The first instruction of a stream, whatever its counter, is accepted and handed over at once. */
  lemma FirstIsHandled(events: seq<Event>, q: Queued)
    requires Possible(events) && ArrivalsOf(events) == []
    ensures var t := AfterEvents(events + [Arrived(q)]); t.accepted == [q] == t.handled && t.handling
  {
    OneHandlerAtATime(events);
    AcceptedFromArrivals(events);
    assert (events + [Arrived(q)])[..|events|] == events;
  }

  /** The last of the arrivals with the greatest counter. */
  predicate IsLatest(qs: seq<Queued>, k: nat)
    requires k < |qs|
  {
    && (forall j :: 0 <= j < |qs| ==> qs[j].instructionMessage.counter <= qs[k].instructionMessage.counter)
    && (forall j :: k < j < |qs| ==> qs[j].instructionMessage.counter < qs[k].instructionMessage.counter)
  }

  lemma {:induction false} LatestExists(qs: seq<Queued>) returns (k: nat)
    requires qs != []
    ensures k < |qs| && IsLatest(qs, k)
  {
    if |qs| == 1 {
      k := 0;
    } else {
      var before := qs[..|qs| - 1];
      k := LatestExists(before);
      assert forall j :: 0 <= j < |before| ==> qs[j] == before[j];
      if before[k].instructionMessage.counter <= qs[|qs| - 1].instructionMessage.counter {
        k := |qs| - 1;
      }
    }
  }

  lemma {:induction false} LastOfNewest(qs: seq<Queued>, k: nat)
    requires k < |qs| && IsLatest(qs, k)
    ensures Last(NewestOf(qs)) == Some(qs[k])
  {
    var before, q := qs[..|qs| - 1], qs[|qs| - 1];
    if k == |qs| - 1 {
      assert IsNewest(before, q);
    } else {
      assert before[k] == qs[k] && !IsNewest(before, q);
      assert forall j :: 0 <= j < |before| ==> before[j] == qs[j];
      LastOfNewest(before, k);
    }
  }

  /**
   * When no handler runs, the instruction handled last is the latest: the last of those with the greatest
   * counter of all that arrived, whatever arrived when, as long as no negative counter comes after 0.
   */
  lemma IdleMeansLatestHandled(events: seq<Event>, k: nat)
    requires Possible(events) && !AfterEvents(events).handling && NoNegativeAfterZero(ArrivalsOf(events))
    requires k < |ArrivalsOf(events)| && IsLatest(ArrivalsOf(events), k)
    ensures Last(AfterEvents(events).handled) == Some(ArrivalsOf(events)[k])
  {
    IdleMeansUpToDate(events);
    AcceptedAreNewestIff(events);
    LastOfNewest(ArrivalsOf(events), k);
  }

  /** A negative counter after 0: the older instruction is handled later. */
  lemma NegativeCounterOvertakes(s: StreamKey, tracker: TrackerId)
    ensures var newer := Queued(InstructionMessage(s, {}, 0), tracker);
      var older := Queued(InstructionMessage(s, {}, -1), tracker);
      var events := [Arrived(newer), HandlerSettled(0), Arrived(older)];
      Possible(events) && !NonDecreasing(AfterEvents(events).handled)
  {
    var newer := Queued(InstructionMessage(s, {}, 0), tracker);
    var older := Queued(InstructionMessage(s, {}, -1), tracker);
    var events := [Arrived(newer), HandlerSettled(0), Arrived(older)];
    var one, two := [Arrived(newer)], [Arrived(newer), HandlerSettled(0)];
    assert one[..0] == [] && two[..1] == one && events[..2] == two;
    assert AfterEvents(one) == Throttle(None, Some(0), true, [newer], [newer], {0});
    assert AfterEvents(two) == Throttle(None, Some(0), false, [newer], [newer], {});
    assert Possible([]) && Possible(one) && Possible(two);
    var t := AfterEvents(events);
    assert t.handled[0] == newer && t.handled[1] == older;
  }

  // ----- the class -----

  class InstructionThrottler {
    var queue: map<StreamKey, Queued>
    var instructionCounter: map<StreamKey, int>
    /** Present from a stream's first instruction on; true while a handler call is in flight. */
    var ongoingPromises: map<StreamKey, bool>
    ghost var accepted: map<StreamKey, seq<Queued>>
    ghost var handled: map<StreamKey, seq<Queued>>
    ghost var inFlight: map<StreamKey, set<nat>>

    ghost function View(s: StreamKey): Throttle
      reads this
    {
      Throttle(
        if s in queue then Some(queue[s]) else None,
        if s in instructionCounter then Some(instructionCounter[s]) else None,
        s in ongoingPromises && ongoingPromises[s],
        if s in accepted then accepted[s] else [],
        if s in handled then handled[s] else [],
        if s in inFlight then inFlight[s] else {})
    }

    constructor ()
      ensures forall s :: View(s) == UNTOUCHED
    {
      queue, instructionCounter, ongoingPromises := map[], map[], map[];
      accepted, handled, inFlight := map[], map[], map[];
    }

    /** An instruction arrives; other streams do not notice. */
    method Add(instructionMessage: InstructionMessage, trackerId: TrackerId) returns (invoked: Option<Queued>)
      requires OneAtATime(View(instructionMessage.streamKey))
      modifies this
      ensures var s := instructionMessage.streamKey;
        && View(s) == Added(old(View(s)), Queued(instructionMessage, trackerId)) && OneAtATime(View(s))
        && forall t :: t != s ==> View(t) == old(View(t))
      ensures var s, q := instructionMessage.streamKey, Queued(instructionMessage, trackerId);
        && (s !in old(instructionCounter) ==> View(s).accepted == old(View(s)).accepted + [q])
        && (s in old(instructionCounter) && old(instructionCounter)[s] != 0 ==>
              (View(s).accepted == old(View(s)).accepted + [q] <==>
               old(instructionCounter)[s] <= instructionMessage.counter))
        && (invoked == if View(s).accepted == old(View(s)).accepted + [q] && !old(View(s)).handling then Some(q)
            else None)
      ensures invoked.Some? ==> old(View(instructionMessage.streamKey)).inFlight == {}
    {
      var streamId := instructionMessage.streamKey;
      invoked := None;
      if streamId !in instructionCounter || instructionCounter[streamId] == 0
         || instructionCounter[streamId] <= instructionMessage.counter {
        Enqueue(streamId, Queued(instructionMessage, trackerId));
        if !ongoingPromises[streamId] {
          invoked := InvokeHandleFnWithLock(streamId);
        }
      }
    }

    /** The instruction takes the one place in the stream's queue. */
    method Enqueue(streamId: StreamKey, q: Queued)
      modifies this
      ensures View(streamId) == old(View(streamId)).(counter := Some(q.instructionMessage.counter), queue := Some(q),
                                                     accepted := old(View(streamId)).accepted + [q])
      ensures streamId in ongoingPromises
      ensures forall t :: t != streamId ==> View(t) == old(View(t))
    {
      instructionCounter := instructionCounter[streamId := q.instructionMessage.counter];
      queue := queue[streamId := q];
      accepted := accepted[streamId := old(View(streamId)).accepted + [q]];
      if streamId !in ongoingPromises {
        ongoingPromises := ongoingPromises[streamId := false];
      }
    }

    /** Starts the next handler call of the stream, if one is queued; returns what it is called with. */
    method InvokeHandleFnWithLock(streamId: StreamKey) returns (invoked: Option<Queued>)
      modifies this
      ensures View(streamId) == Invoke(old(View(streamId))) && invoked == old(View(streamId)).queue
      ensures forall t :: t != streamId ==> View(t) == old(View(t))
    {
      if streamId !in queue {
        ongoingPromises := ongoingPromises[streamId := false];
        return None;
      }
      ongoingPromises := ongoingPromises[streamId := true];
      invoked := Some(queue[streamId]);
      queue := queue - {streamId};
      inFlight := inFlight[streamId := old(View(streamId)).inFlight + {|old(View(streamId)).handled|}];
      handled := handled[streamId := old(View(streamId)).handled + [invoked.value]];
    }

    /** The handler call in flight settles; the next one starts at once. */
    method HandlerDone(streamId: StreamKey, ghost i: nat) returns (invoked: Option<Queued>)
      requires OneAtATime(View(streamId)) && i in View(streamId).inFlight
      modifies this
      ensures View(streamId) == AfterSettling(old(View(streamId)), i) && OneAtATime(View(streamId))
      ensures forall t :: t != streamId ==> View(t) == old(View(t))
    {
      inFlight := inFlight[streamId := View(streamId).inFlight - {i}];
      invoked := InvokeHandleFnWithLock(streamId);
    }

    method IsIdle() returns (idle: bool)
      ensures idle <==> forall s :: !View(s).handling
    {
      idle := forall s :: s in ongoingPromises ==> !ongoingPromises[s];
      if !idle {
        ghost var s :| s in ongoingPromises && ongoingPromises[s];
        assert View(s).handling;
      }
    }
  }
}
