/** The tracker over whole runs of statuses and disconnects. */
module TrackerRuns {
  import opened Identifiers
  import opened Collections
  import opened Graphs
  import opened OverlayPlans
  import opened OverlayRuns
  import opened InstructionCounters
  import opened TrackerSteps
  import opened TrackerLedger

  // ----- every phase keeps the invariant -----

  lemma {:induction false} ForcedRunKeepsInv(st: TrackerState, limit: nat, s: StreamKey, calls: seq<Call>,
                                             run: seq<Answered>)
    requires Inv(st) && ForcedRun(st, limit, s, calls, run)
    ensures Inv(LastState(st, run))
  {
    if run == [] {
    } else {
      var k := |run| - 1;
      ForcedRunKeepsInv(st, limit, s, calls[..k], run[..k]);
      FormedKeepsInv(LastState(st, run[..k]), run[k].after, limit, calls[k].v, s, true, calls[k].plan, run[k].batch);
    }
  }

  lemma DepartedKeepsInv(st: TrackerState, st': TrackerState, limit: nat, n: NodeId, s: StreamKey, calls: seq<Call>)
    requires Inv(st) && Departed(st, st', limit, n, s, calls)
    ensures Inv(st')
  {
    if Left(st.views[s], n) == map[] {
      EmptiedKeepsInv(st, st', n, s);
    } else {
      var st1 :| Gone(st, st1, n, s) && ReInstructed(st1, st', limit, s, Nbrs(st.views[s], n), calls);
      GoneKeepsInv(st, st1, n, s);
      var run :| ForcedRun(st1, limit, s, calls, run) && st' == LastState(st1, run);
      ForcedRunKeepsInv(st1, limit, s, calls, run);
    }
  }

  function StreamsOf(run: seq<Departure>): set<StreamKey> {
    set i | 0 <= i < |run| :: run[i].s
  }

  lemma DeparturesPrefix(st: TrackerState, run: seq<Departure>, limit: nat, n: NodeId, k: nat)
    requires Departures(st, run, limit, n) && k <= |run|
    ensures Departures(st, run[..k], limit, n)
  {
    var q := run[..k];
    forall i | 0 <= i < k ensures Departed(Final(st, q[..i]), q[i].after, limit, n, q[i].s, q[i].calls) {
      assert q[..i] == run[..i] && q[i] == run[i];
    }
  }

  lemma StreamsOfLast(run: seq<Departure>)
    requires run != []
    ensures StreamsOf(run) == StreamsOf(run[..|run| - 1]) + {run[|run| - 1].s}
  {
    var q := run[..|run| - 1];
    forall s | s in StreamsOf(run) ensures s in StreamsOf(q) + {run[|run| - 1].s} {
      var i :| 0 <= i < |run| && run[i].s == s;
      assert i == |run| - 1 || q[i].s == s;
    }
    forall s | s in StreamsOf(q) ensures s in StreamsOf(run) {
      var i :| 0 <= i < |q| && q[i].s == s;
      assert run[i].s == s;
    }
  }

  lemma {:induction false} DeparturesEffect(st: TrackerState, run: seq<Departure>, limit: nat, n: NodeId)
    requires Inv(st) && Departures(st, run, limit, n)
    ensures Inv(Final(st, run)) && Removed(st, Final(st, run), n, StreamsOf(run))
  {
    if run == [] {
      NothingRemoved(st, n);
      assert StreamsOf(run) == {};
    } else {
      var k := |run| - 1;
      DeparturesPrefix(st, run, limit, n, k);
      DeparturesEffect(st, run[..k], limit, n);
      DepartedKeepsInv(Final(st, run[..k]), run[k].after, limit, n, run[k].s, run[k].calls);
      DepartedRemoves(Final(st, run[..k]), run[k].after, limit, n, run[k].s, run[k].calls);
      RemovedMore(st, Final(st, run[..k]), run[k].after, n, StreamsOf(run[..k]), run[k].s);
      StreamsOfLast(run);
    }
  }

  lemma {:induction false} NotMoreStreams(run: seq<Departure>)
    ensures |StreamsOf(run)| <= |run|
  {
    if run == [] {
      assert StreamsOf(run) == {};
    } else {
      NotMoreStreams(run[..|run| - 1]);
      StreamsOfLast(run);
    }
  }

  lemma EachOnceStreams(run: seq<Departure>, streams: set<StreamKey>)
    requires EachOnce(run, streams)
    ensures StreamsOf(run) == streams
  {
    NotMoreStreams(run);
    forall s | s in streams ensures s in StreamsOf(run) {
      var i :| 0 <= i < |run| && run[i].s == s;
    }
    SubsetSize(streams, StreamsOf(run));
  }

  lemma LeftAllEffect(st: TrackerState, st': TrackerState, limit: nat, n: NodeId, streams: set<StreamKey>,
                      run: seq<Departure>)
    requires Inv(st) && LeftAll(st, st', limit, n, streams, run)
    ensures Inv(st') && Removed(st, st', n, streams)
  {
    DeparturesEffect(st, run, limit, n);
    EachOnceStreams(run, streams);
  }

  /** Only nodes of an overlay are in the answer that it gives. */
  lemma AnsweredNodes(st: TrackerState, limit: nat, n: NodeId, plans: map<StreamKey, Plan>, views: Views,
                      t: StreamKey, m: NodeId)
    requires Inv(st) && FormedViews(st, views, limit, n, plans) && m in Answer(st, limit, n, plans, t)
    ensures t in st.views && m in st.views[t]
  {
    InstructedNodes(st.views[t], n, limit, plans[t], false);
  }

  lemma FormedViewWellFormed(st: TrackerState, views: Views, limit: nat, n: NodeId, plans: map<StreamKey, Plan>,
                             t: StreamKey)
    requires Inv(st) && FormedViews(st, views, limit, n, plans) && t in views
    ensures WellFormed(views[t]) && views[t].Keys == st.views[t].Keys
  {
    if t in plans && n in st.views[t] {
      PlanWellFormed(st.views[t], n, limit, plans[t]);
      SameSize(st.views[t], n, limit, plans[t]);
    }
  }

  lemma FormedAllKeepsInv(st: TrackerState, st': TrackerState, limit: nat, n: NodeId, plans: map<StreamKey, Plan>,
                          batch: seq<Instruction>)
    requires Inv(st) && FormedAll(st, st', limit, n, plans, batch)
    ensures Inv(st')
  {
    forall t | t in st'.views ensures WellFormed(st'.views[t]) && st'.views[t].Keys == st.views[t].Keys {
      FormedViewWellFormed(st, st'.views, limit, n, plans, t);
    }
    forall m, t | Count(st'.counters, m, t) > 0 ensures t in st'.views && m in st'.views[t] {
      if m in Answer(st, limit, n, plans, t) {
        AnsweredNodes(st, limit, n, plans, st'.views, t, m);
      } else {
        assert Count(st.counters, m, t) > 0;
      }
    }
  }

  // ----- every event keeps it -----

  lemma FullKeepsInv(st: TrackerState, st': TrackerState, limit: nat, n: NodeId, status: Status, h: Handling)
    requires Inv(st) && HandledFull(st, st', limit, n, status, h)
    ensures Inv(h.left) && Inv(st') && Removed(h.reported, h.left, n, h.reported.views.Keys - status.streams.Keys)
  {
    var created := st.(views := Created(st.views, status.streams.Keys));
    CreatedInv(st, created, status.streams.Keys);
    ReportedInv(created, h.reported, n, Filtered(st.counters, n, status.streams));
    LeftAllEffect(h.reported, h.left, limit, n, h.reported.views.Keys - status.streams.Keys, h.departures);
    FormedAllKeepsInv(h.left, st', limit, n, h.plans, h.batch);
  }

  lemma UpdatedOneKeepsInv(st: TrackerState, st': TrackerState, limit: nat, n: NodeId,
                           filtered: map<StreamKey, StreamStatus>, calls: seq<Call>)
    requires Inv(st) && UpdatedOne(st, st', limit, n, filtered, calls)
    ensures Inv(st')
  {
    if |filtered| == 1 {
      if Unsubscribes(filtered) {
        var s :| s in filtered && Departed(st, st', limit, n, s, calls);
        DepartedKeepsInv(st, st', limit, n, s, calls);
      } else {
        ReportedInv(st, st', n, filtered);
      }
    }
  }

  lemma SingleKeepsInv(st: TrackerState, st': TrackerState, limit: nat, n: NodeId, status: Status, h: Handling)
    requires Inv(st) && HandledSingle(st, st', limit, n, status, h)
    ensures Inv(h.created) && Inv(h.updated) && Inv(st')
  {
    CreatedInv(st, h.created, status.streams.Keys);
    UpdatedOneKeepsInv(h.created, h.updated, limit, n, Filtered(st.counters, n, status.streams), h.calls);
    FormedAllKeepsInv(h.updated, st', limit, n, h.plans, h.batch);
  }

  /** Something that reaches the tracker, with the choices made in handling it. */
  datatype Step =
    | StatusArrived(n: NodeId, status: Status, h: Handling)
    | NodeDisconnected(n: NodeId, departures: seq<Departure>)

  /** What the methods processNodeStatus and onNodeDisconnected do. */
  ghost predicate Stepped(st: TrackerState, st': TrackerState, limit: nat, step: Step) {
    match step
    case StatusArrived(n, status, h) =>
      if status.singleStream then HandledSingle(st, st', limit, n, status, h)
        else HandledFull(st, st', limit, n, status, h)
    case NodeDisconnected(n, departures) => LeftAll(st, st', limit, n, st.views.Keys, departures)
  }

  /** The members that a step leaves behind, in terms of the members and counters before it. */
  function StepMembers(st: TrackerState, step: Step): Membership {
    match step
    case StatusArrived(n, status, _) => StatusMembers(Members(st.views), st.counters, n, status)
    case NodeDisconnected(n, _) => LedgerStep(Members(st.views), Disconnect(n))
  }

  lemma StepEffect(st: TrackerState, st': TrackerState, limit: nat, step: Step)
    requires Inv(st) && Stepped(st, st', limit, step)
    ensures Inv(st') && Members(st'.views) == StepMembers(st, step)
  {
    match step
    case StatusArrived(n, status, h) =>
      if status.singleStream {
        SingleKeepsInv(st, st', limit, n, status, h);
        SingleStatusEffect(st, st', limit, n, status, h);
      } else {
        FullKeepsInv(st, st', limit, n, status, h);
        FullStatusEffect(st, st', limit, n, status, h);
      }
    case NodeDisconnected(n, departures) =>
      LeftAllEffect(st, st', limit, n, st.views.Keys, departures);
      assert Members(st.views).Keys == st.views.Keys;
      DisconnectLeaves(Members(st.views), n);
  }

  // ----- runs -----

  /** A step and the state after it. */
  datatype Reached = Reached(step: Step, after: TrackerState)

  const NEW_TRACKER := TrackerState(map[], map[], [])

  function StateAfter(run: seq<Reached>): TrackerState {
    if run == [] then NEW_TRACKER else run[|run| - 1].after
  }

  ghost predicate TrackerRun(limit: nat, run: seq<Reached>) {
    run != [] ==>
      var q, last := run[..|run| - 1], run[|run| - 1];
      TrackerRun(limit, q) && Stepped(StateAfter(q), last.after, limit, last.step)
  }

  /** Positive counters belong to members, after every run, whatever the statuses claim. */
  lemma {:induction false} RunKeepsInv(limit: nat, run: seq<Reached>)
    requires TrackerRun(limit, run)
    ensures Inv(StateAfter(run))
  {
    if run == [] {
      assert forall n, s :: Count(map[], n, s) == 0;
    } else {
      var q, last := run[..|run| - 1], run[|run| - 1];
      RunKeepsInv(limit, q);
      StepEffect(StateAfter(q), last.after, limit, last.step);
    }
  }

  ghost predicate SoundStep(step: Step) {
    step.StatusArrived? ==> WellFormedStatus(step.status)
  }

  /** The event that a step is, as nodes would tell it. */
  ghost function EventOf(step: Step): (e: Event)
    requires SoundStep(step)
    ensures step.StatusArrived? ==> Announces(step.status, step.n, e)
    ensures step.NodeDisconnected? ==> e == Disconnect(step.n)
  {
    match step
    case StatusArrived(n, status, _) =>
      if status.singleStream then
        assert |status.streams.Keys| == 1;
        var s :| s in status.streams;
        SingleStatus(n, s, status.streams[s].counter == UNSUBSCRIBED)
      else FullStatus(n, status.streams.Keys)
    case NodeDisconnected(n, _) => Disconnect(n)
  }

  ghost predicate SoundRun(run: seq<Reached>) {
    forall i :: 0 <= i < |run| ==> SoundStep(run[i].step)
  }

  ghost function EventsOf(run: seq<Reached>): seq<Event>
    requires SoundRun(run)
  {
    seq(|run|, i requires 0 <= i < |run| => EventOf(run[i].step))
  }

  lemma EventsOfLast(run: seq<Reached>)
    requires SoundRun(run) && run != []
    ensures var events, q := EventsOf(run), run[..|run| - 1];
      SoundRun(q) && events[..|events| - 1] == EventsOf(q) && events[|events| - 1] == EventOf(run[|run| - 1].step)
  {
  }

  lemma SoundStepIsLedgerStep(st: TrackerState, step: Step)
    requires Inv(st) && NoneEmpty(Members(st.views)) && SoundStep(step)
    ensures StepMembers(st, step) == LedgerStep(Members(st.views), EventOf(step))
  {
    if step.StatusArrived? {
      StatusIsLedgerStep(st, step.n, step.status, EventOf(step));
    }
  }

  /** The members of all overlays, after any run of sound events, are those of the ledger. */
  lemma {:induction false} TrackerFollowsLedger(limit: nat, run: seq<Reached>)
    requires TrackerRun(limit, run) && SoundRun(run)
    ensures Members(StateAfter(run).views) == Ledger(EventsOf(run)) && NoneEmpty(Members(StateAfter(run).views))
  {
    if run == [] {
      assert Members(StateAfter(run).views) == map[];
    } else {
      var q, last := run[..|run| - 1], run[|run| - 1];
      EventsOfLast(run);
      TrackerFollowsLedger(limit, q);
      RunKeepsInv(limit, q);
      StepEffect(StateAfter(q), last.after, limit, last.step);
      SoundStepIsLedgerStep(StateAfter(q), last.step);
      StepNoneEmpty(Members(StateAfter(q).views), EventOf(last.step));
    }
  }

  /**
   * After any run of the tracker, a node is in a stream's overlay exactly when the last full status,
   * status for that stream or disconnect of the node put it there; and no stored overlay is empty.
   */
  lemma TrackerHeedsLastWord(limit: nat, run: seq<Reached>, n: NodeId, s: StreamKey)
    requires TrackerRun(limit, run) && SoundRun(run)
    ensures var views := StateAfter(run).views;
      && (s in views && n in views[s] <==> LastWord(EventsOf(run), n, s) == In)
      && forall t :: t in views ==> views[t] != map[]
  {
    TrackerFollowsLedger(limit, run);
    LedgerIsLastWord(EventsOf(run), n, s);
    var views := StateAfter(run).views;
    forall t | t in views ensures views[t] != map[] {
      assert Members(views)[t] != {};
    }
  }

  // ----- empty overlays -----

  /** No overlay is stored without a node at any point of the run. */
  ghost predicate NeverEmpty(run: seq<Reached>) {
    NoneEmpty(Members(StateAfter(run).views)) && (run != [] ==> NeverEmpty(run[..|run| - 1]))
  }

  /** Every status of the run brings a node into each overlay that it creates. */
  ghost predicate AllJoined(run: seq<Reached>) {
    run != [] ==>
      var q, step := run[..|run| - 1], run[|run| - 1].step;
      AllJoined(q) && (step.StatusArrived? ==> NewStreamsJoined(StateAfter(q), step.n, step.status))
  }

  lemma StepNoneEmptyIff(st: TrackerState, st': TrackerState, limit: nat, step: Step)
    requires Inv(st) && NoneEmpty(Members(st.views)) && Stepped(st, st', limit, step)
    ensures NoneEmpty(Members(st'.views)) <==>
            (step.StatusArrived? ==> NewStreamsJoined(st, step.n, step.status))
  {
    StepEffect(st, st', limit, step);
    match step
    case StatusArrived(n, status, h) => NewStreamNeedsCounter(st, n, status);
    case NodeDisconnected(n, departures) => StepNoneEmpty(Members(st.views), Disconnect(n));
  }

  /** In a run of any statuses, no overlay is ever stored empty if and only if every status joins what it creates. */
  lemma {:induction false} NeverEmptyIff(limit: nat, run: seq<Reached>)
    requires TrackerRun(limit, run)
    ensures NeverEmpty(run) <==> AllJoined(run)
  {
    if run == [] {
    } else {
      var q, last := run[..|run| - 1], run[|run| - 1];
      NeverEmptyIff(limit, q);
      RunKeepsInv(limit, q);
      if NeverEmpty(q) {
        StepNoneEmptyIff(StateAfter(q), last.after, limit, last.step);
      }
    }
  }

  /** A full status with counter -2 for one stream, handled by a tracker that knows nothing yet. */
  function EmptyingStatus(s: StreamKey): Status {
    Status(map[s := StreamStatus({}, {}, -2)], false)
  }

  function EmptyingRun(n: NodeId, s: StreamKey): seq<Reached> {
    var after := TrackerState(map[s := map[]], map[], []);
    [Reached(StatusArrived(n, EmptyingStatus(s), Full(after, [], after, map[], [])), after)]
  }

  /** It is filtered out, but its overlay is created, and the node never leaves it: the overlay stays empty. */
  lemma EmptyOverlayStored(limit: nat, n: NodeId, s: StreamKey)
    ensures TrackerRun(limit, EmptyingRun(n, s)) && !NeverEmpty(EmptyingRun(n, s))
  {
    var run := EmptyingRun(n, s);
    var after, status := run[0].after, EmptyingStatus(s);
    assert run[..0] == [] && TrackerRun(limit, run[..0]);
    assert Filtered(map[], n, status.streams) == map[];
    assert Taken(NEW_TRACKER, n, status) == map[s := map[]];
    assert after.views.Keys - status.streams.Keys == {};
    LeftNothing(after, limit, n);
    FormedNothingYet(after, limit, n);
    assert Called(after.views, n, status.streams.Keys) == {};
    assert Members(after.views)[s] == {};
  }
}
