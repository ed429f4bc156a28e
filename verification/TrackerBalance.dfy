/** Degrees in the tracker's overlays, as long as nodes report the neighbours that the tracker knows them to have. */
module TrackerBalance {
  import opened Identifiers
  import opened Graphs
  import opened OverlayPlans
  import opened OverlayRuns
  import opened OverlayBalance
  import opened InstructionCounters
  import opened TrackerSteps
  import opened TrackerLedger
  import opened TrackerRuns

  // ----- faithful reports -----

  /** The report names, among the overlay's nodes, exactly the known neighbours; a new node has none. */
  ghost predicate Faithful(g: Graph, n: NodeId, reported: set<NodeId>) {
    forall m :: m in reported && m in g && m != n <==> m in Nbrs(g, n)
  }

  lemma FaithfulUpdate(g: Graph, n: NodeId, reported: set<NodeId>)
    requires WellFormed(g) && Faithful(g, n, reported)
    ensures Updated(g, n, reported) == if n in g then g else Updated(g, n, {})
  {
    if n in g {
      forall m | m in g ensures Updated(g, n, reported)[m] == g[m] {
        assert n in Nbrs(g, m) <==> m in Nbrs(g, n);
      }
      assert Updated(g, n, reported).Keys == g.Keys;
    } else {
      forall m | m in g ensures Updated(g, n, reported)[m] == Updated(g, n, {})[m] {
        assert m !in Nbrs(g, n);
      }
      assert Updated(g, n, reported)[n] == {} == Updated(g, n, {})[n];
    }
  }

  /** The reports of a status that the tracker takes over. */
  function TakenOver(st: TrackerState, n: NodeId, status: Status): map<StreamKey, StreamStatus> {
    var filtered := Filtered(st.counters, n, status.streams);
    if !status.singleStream || (|filtered| == 1 && !Unsubscribes(filtered)) then filtered else map[]
  }

  ghost predicate FaithfulStatus(st: TrackerState, n: NodeId, status: Status) {
    var taken := TakenOver(st, n, status);
    forall s :: s in taken ==> Faithful(ViewOf(st.views, s), n, taken[s].inboundNodes + taken[s].outboundNodes)
  }

  // ----- phases -----

  ghost predicate AllBalanced(views: Views, limit: nat, except: set<StreamKey>) {
    forall s :: s in views && s !in except ==> Balanced(views[s], limit)
  }

  /** A balanced overlay to which n has just been added on its own. */
  ghost predicate JustJoined(g: Graph, n: NodeId, limit: nat) {
    exists before :: WellFormed(before) && Balanced(before, limit) && n !in before && g == Updated(before, n, {})
  }

  /** Overlays out of balance are those that n has just joined, and they are among `keys`. */
  ghost predicate BalancedButJoined(views: Views, n: NodeId, limit: nat, keys: set<StreamKey>) {
    forall s :: s in views ==> Balanced(views[s], limit) || (s in keys && JustJoined(views[s], n, limit))
  }

  lemma CallsMadeBalanced(views: Views, views1: Views, views2: Views, limit: nat, n: NodeId, s: StreamKey,
                          calls: seq<Call>, except: set<StreamKey>)
    requires AllWellFormed(views) && AllBalanced(views, limit, except) && s in views && s !in except
    requires views1 == views[s := Left(views[s], n)] && CallsMade(views1, views2, limit, s, Nbrs(views[s], n), calls)
    ensures AllBalanced(views2, limit, except)
  {
    assert WellFormed(views[s]) && Balanced(views[s], limit);
    DepartureBalanced(views[s], n, limit, calls);
  }

  lemma DepartedBalanced(st: TrackerState, st': TrackerState, limit: nat, n: NodeId, s: StreamKey, calls: seq<Call>,
                         except: set<StreamKey>)
    requires Inv(st) && Departed(st, st', limit, n, s, calls) && AllBalanced(st.views, limit, except) && s !in except
    ensures AllBalanced(st'.views, limit, except)
  {
    if Left(st.views[s], n) != map[] {
      var st1 :| Gone(st, st1, n, s) && ReInstructed(st1, st', limit, s, Nbrs(st.views[s], n), calls);
      CallsMadeBalanced(st.views, st1.views, st'.views, limit, n, s, calls, except);
    }
  }

  lemma {:induction false} DeparturesBalanced(st: TrackerState, run: seq<Departure>, limit: nat, n: NodeId,
                                              except: set<StreamKey>)
    requires Inv(st) && Departures(st, run, limit, n) && AllBalanced(st.views, limit, except) &&
             StreamsOf(run) !! except
    ensures AllBalanced(Final(st, run).views, limit, except)
  {
    if run == [] {
    } else {
      var k := |run| - 1;
      DeparturesPrefix(st, run, limit, n, k);
      StreamsOfLast(run);
      DeparturesBalanced(st, run[..k], limit, n, except);
      DeparturesEffect(st, run[..k], limit, n);
      DepartedBalanced(Final(st, run[..k]), run[k].after, limit, n, run[k].s, run[k].calls, except);
    }
  }

  lemma FormedViewBalanced(st: TrackerState, views: Views, limit: nat, n: NodeId, keys: set<StreamKey>,
                           plans: map<StreamKey, Plan>, s: StreamKey)
    requires Inv(st) && BalancedButJoined(st.views, n, limit, keys) && FormedViews(st, views, limit, n, plans)
    requires plans.Keys == Called(st.views, n, keys) && s in views
    ensures Balanced(views[s], limit)
  {
    if Balanced(st.views[s], limit) {
      if s in plans && n in st.views[s] {
        CallBalanced(st.views[s], n, limit, plans[s]);
      }
    } else {
      var before :| WellFormed(before) && Balanced(before, limit) && n !in before &&
        st.views[s] == Updated(before, n, {});
      assert n in st.views[s] && s in Called(st.views, n, keys);
      JoinBalanced(before, n, limit, plans[s]);
    }
  }

  lemma TakenBalanced(st: TrackerState, views: Views, limit: nat, n: NodeId, keys: set<StreamKey>,
                      taken: map<StreamKey, StreamStatus>)
    requires Inv(st) && AllBalanced(st.views, limit, {}) && views == Reported(Created(st.views, keys), n, taken)
    requires taken.Keys <= keys
    requires forall s :: s in taken ==> Faithful(ViewOf(st.views, s), n, taken[s].inboundNodes + taken[s].outboundNodes)
    ensures BalancedButJoined(views, n, limit, keys)
  {
    forall s | s in views ensures Balanced(views[s], limit) || (s in keys && JustJoined(views[s], n, limit)) {
      var before := ViewOf(st.views, s);
      assert WellFormed(before) && Balanced(before, limit);
      if s in taken {
        FaithfulUpdate(before, n, taken[s].inboundNodes + taken[s].outboundNodes);
      }
    }
  }

  // ----- events -----

  lemma FullBalanced(st: TrackerState, st': TrackerState, limit: nat, n: NodeId, status: Status, h: Handling)
    requires Inv(st) && !status.singleStream && HandledFull(st, st', limit, n, status, h)
    requires AllBalanced(st.views, limit, {}) && FaithfulStatus(st, n, status)
    ensures AllBalanced(st'.views, limit, {})
  {
    var keys := status.streams.Keys;
    FullKeepsInv(st, st', limit, n, status, h);
    TakenBalanced(st, h.reported.views, limit, n, keys, Filtered(st.counters, n, status.streams));
    ReportedKeepsInv(st, limit, n, status, h);
    EachOnceStreams(h.departures, h.reported.views.Keys - keys);
    DeparturesBalanced(h.reported, h.departures, limit, n, keys);
    forall s | s in h.left.views
      ensures Balanced(h.left.views[s], limit) || (s in keys && JustJoined(h.left.views[s], n, limit))
    {
      if s in keys {
        ListedStay(h.reported, h.left, n, keys, s);
      }
    }
    forall s | s in st'.views ensures Balanced(st'.views[s], limit) {
      FormedViewBalanced(h.left, st'.views, limit, n, keys, h.plans, s);
    }
  }

  lemma ReportedKeepsInv(st: TrackerState, limit: nat, n: NodeId, status: Status, h: Handling)
    requires Inv(st) && h.Full? && h.reported.views == Taken(st, n, status) &&
             SameCounts(h.reported.counters, st.counters)
    ensures Inv(h.reported)
  {
    var created := st.(views := Created(st.views, status.streams.Keys));
    CreatedInv(st, created, status.streams.Keys);
    ReportedInv(created, h.reported, n, Filtered(st.counters, n, status.streams));
  }

  lemma ListedStay(st: TrackerState, st': TrackerState, n: NodeId, keys: set<StreamKey>, s: StreamKey)
    requires Removed(st, st', n, st.views.Keys - keys) && s in keys && s in st'.views
    ensures s in st.views && st'.views[s] == st.views[s]
  {
    assert s in Members(st'.views) && s in Members(st.views);
  }

  lemma UpdatedOneBalanced(st: TrackerState, created: TrackerState, updated: TrackerState, limit: nat, n: NodeId,
                           keys: set<StreamKey>, filtered: map<StreamKey, StreamStatus>, calls: seq<Call>)
    requires Inv(st) && Inv(created) && AllBalanced(st.views, limit, {}) && created.views == Created(st.views, keys)
    requires UpdatedOne(created, updated, limit, n, filtered, calls) && filtered.Keys <= keys
    requires |filtered| == 1 && !Unsubscribes(filtered) ==>
      forall s :: s in filtered ==>
        Faithful(ViewOf(st.views, s), n, filtered[s].inboundNodes + filtered[s].outboundNodes)
    ensures BalancedButJoined(updated.views, n, limit, keys)
  {
    assert AllBalanced(created.views, limit, {});
    if |filtered| == 1 {
      if Unsubscribes(filtered) {
        var s :| s in filtered && Departed(created, updated, limit, n, s, calls);
        DepartedBalanced(created, updated, limit, n, s, calls, {});
      } else {
        TakenBalanced(st, updated.views, limit, n, keys, filtered);
      }
    }
  }

  lemma SingleBalanced(st: TrackerState, st': TrackerState, limit: nat, n: NodeId, status: Status, h: Handling)
    requires Inv(st) && status.singleStream && HandledSingle(st, st', limit, n, status, h)
    requires AllBalanced(st.views, limit, {}) && FaithfulStatus(st, n, status)
    ensures AllBalanced(st'.views, limit, {})
  {
    var keys, filtered := status.streams.Keys, Filtered(st.counters, n, status.streams);
    SingleKeepsInv(st, st', limit, n, status, h);
    UpdatedOneBalanced(st, h.created, h.updated, limit, n, keys, filtered, h.calls);
    forall s | s in st'.views ensures Balanced(st'.views[s], limit) {
      FormedViewBalanced(h.updated, st'.views, limit, n, keys, h.plans, s);
    }
  }

  lemma StepBalanced(st: TrackerState, st': TrackerState, limit: nat, step: Step)
    requires Inv(st) && Stepped(st, st', limit, step) && AllBalanced(st.views, limit, {})
    requires step.StatusArrived? ==> FaithfulStatus(st, step.n, step.status)
    ensures AllBalanced(st'.views, limit, {})
  {
    match step
    case StatusArrived(n, status, h) =>
      if status.singleStream {
        SingleBalanced(st, st', limit, n, status, h);
      } else {
        FullBalanced(st, st', limit, n, status, h);
      }
    case NodeDisconnected(n, departures) => DeparturesBalanced(st, departures, limit, n, {});
  }

  // ----- runs -----

  ghost predicate FaithfulRun(run: seq<Reached>) {
    run != [] ==>
      var q, step := run[..|run| - 1], run[|run| - 1].step;
      FaithfulRun(q) && (step.StatusArrived? ==> FaithfulStatus(StateAfter(q), step.n, step.status))
  }

  /**
   * After any run of the tracker in which accepted reports agree with what the tracker knows, every node
   * of every overlay has between min(limit - 1, N - 1) and limit neighbours.
   */
  lemma {:induction false} TrackerKeepsBalance(limit: nat, run: seq<Reached>)
    requires TrackerRun(limit, run) && FaithfulRun(run)
    ensures forall s :: s in StateAfter(run).views ==> Balanced(StateAfter(run).views[s], limit)
  {
    if run == [] {
    } else {
      var q, last := run[..|run| - 1], run[|run| - 1];
      TrackerKeepsBalance(limit, q);
      RunKeepsInv(limit, q);
      StepBalanced(StateAfter(q), last.after, limit, last.step);
    }
  }
}
