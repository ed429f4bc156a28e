/** Which reports the tracker heeds: those that echo the counter of the node's latest instruction. */
module TrackerEchoes {
  import opened Identifiers
  import opened Options
  import opened Graphs
  import opened OverlayPlans
  import opened OverlayRuns
  import opened InstructionCounters
  import opened TrackerSteps
  import opened TrackerLedger
  import opened TrackerRuns

  /** The counter value in the last instruction for m and s. */
  function LastCounter(sent: seq<Instruction>, s: StreamKey, m: NodeId): Option<int> {
    if sent == [] then None
    else
      var last := sent[|sent| - 1];
      if last.nodeId == m && last.streamKey == s then Some(last.counter) else LastCounter(sent[..|sent| - 1], s, m)
  }

  lemma {:induction false} LastCounterConcat(a: seq<Instruction>, b: seq<Instruction>, s: StreamKey, m: NodeId)
    ensures LastCounter(a + b, s, m) ==
            if LastCounter(b, s, m) == None then LastCounter(a, s, m) else LastCounter(b, s, m)
  {
    if b == [] {
      assert a + b == a;
    } else {
      assert (a + b)[..|a + b| - 1] == a + b[..|b| - 1];
      LastCounterConcat(a, b[..|b| - 1], s, m);
    }
  }

  lemma {:induction false} LastCounterAgrees(batch: seq<Instruction>, s: StreamKey, m: NodeId, c: int)
    requires forall i :: 0 <= i < |batch| && batch[i].nodeId == m && batch[i].streamKey == s ==> batch[i].counter == c
    ensures LastCounter(batch, s, m) == if Holds(batch, m, s) then Some(c) else None
  {
    if batch == [] {
    } else {
      var q, last := batch[..|batch| - 1], batch[|batch| - 1];
      LastCounterAgrees(q, s, m, c);
      assert q + [last] == batch;
      if Holds(q, m, s) || (last.nodeId == m && last.streamKey == s) {
        assert last.nodeId == m && last.streamKey == s ==> [last][0].nodeId == m && Holds([last], m, s);
        HoldsGrows(q, [last], m, s);
      }
    }
  }

  predicate Echoes(count: int, last: Option<int>) {
    match last
    case None => count == 0
    case Some(counter) => counter > 0 && (count == 0 || count == counter)
  }

  /** A count is that of the last instruction, or 0: it was wiped since, or nothing was sent. */
  ghost predicate CountsEcho(c: Counters, sent: seq<Instruction>) {
    forall m, t :: Echoes(Count(c, m, t), LastCounter(sent, t, m))
  }

  /** Every instruction of the batch carries the count that it leaves behind. */
  ghost predicate CountsFollow(c0: Counters, c1: Counters, batch: seq<Instruction>) {
    forall m, t ::
      || (LastCounter(batch, t, m) == Some(Count(c1, m, t)) && Count(c1, m, t) == Count(c0, m, t) + 1)
      || (LastCounter(batch, t, m) == None && Count(c1, m, t) == Count(c0, m, t))
  }

  lemma FollowedEcho(c0: Counters, c1: Counters, sent: seq<Instruction>, batch: seq<Instruction>)
    requires CountsEcho(c0, sent) && CountsFollow(c0, c1, batch)
    ensures CountsEcho(c1, sent + batch)
  {
    forall m, t ensures Echoes(Count(c1, m, t), LastCounter(sent + batch, t, m)) {
      LastCounterConcat(sent, batch, t, m);
    }
  }

  lemma BatchFollows(batch: seq<Instruction>, s: StreamKey, told: map<NodeId, set<NodeId>>, c0: Counters, c1: Counters)
    requires IsBatch(batch, s, told, c0) && CountedUp(c0, c1, s, told.Keys)
    ensures CountsFollow(c0, c1, batch)
  {
    forall m, t
      ensures (LastCounter(batch, t, m) == Some(Count(c1, m, t)) && Count(c1, m, t) == Count(c0, m, t) + 1) ||
              (LastCounter(batch, t, m) == None && Count(c1, m, t) == Count(c0, m, t))
    {
      LastCounterAgrees(batch, t, m, Count(c1, m, t));
    }
  }

  lemma FormedEcho(st: TrackerState, st': TrackerState, limit: nat, n: NodeId, s: StreamKey, force: bool, plan: Plan,
                   batch: seq<Instruction>)
    requires Formed(st, st', limit, n, s, force, plan, batch) && CountsEcho(st.counters, st.sent)
    ensures CountsEcho(st'.counters, st'.sent)
  {
    if s in st.views && n in st.views[s] {
      BatchFollows(batch, s, Instructions(st.views[s], n, limit, plan, force), st.counters, st'.counters);
      FollowedEcho(st.counters, st'.counters, st.sent, batch);
    }
  }

  lemma FormedAllEcho(st: TrackerState, st': TrackerState, limit: nat, n: NodeId, plans: map<StreamKey, Plan>,
                      batch: seq<Instruction>)
    requires FormedAll(st, st', limit, n, plans, batch) && CountsEcho(st.counters, st.sent)
    ensures CountsEcho(st'.counters, st'.sent)
  {
    forall m, t
      ensures (LastCounter(batch, t, m) == Some(Count(st'.counters, m, t)) &&
               Count(st'.counters, m, t) == Count(st.counters, m, t) + 1) ||
              (LastCounter(batch, t, m) == None && Count(st'.counters, m, t) == Count(st.counters, m, t))
    {
      forall i | 0 <= i < |batch| && batch[i].nodeId == m && batch[i].streamKey == t
        ensures m in Answer(st, limit, n, plans, t) && batch[i].counter == Count(st.counters, m, t) + 1
      {
        assert PassesOn(st, batch[i], limit, n, plans);
      }
      LastCounterAgrees(batch, t, m, Count(st'.counters, m, t));
    }
    FollowedEcho(st.counters, st'.counters, st.sent, batch);
  }

  lemma {:induction false} ForcedRunEcho(st: TrackerState, limit: nat, s: StreamKey, calls: seq<Call>,
                                         run: seq<Answered>)
    requires ForcedRun(st, limit, s, calls, run) && CountsEcho(st.counters, st.sent)
    ensures CountsEcho(LastState(st, run).counters, LastState(st, run).sent)
  {
    if run == [] {
    } else {
      var k := |run| - 1;
      ForcedRunEcho(st, limit, s, calls[..k], run[..k]);
      FormedEcho(LastState(st, run[..k]), run[k].after, limit, calls[k].v, s, true, calls[k].plan, run[k].batch);
    }
  }

  lemma DepartedEcho(st: TrackerState, st': TrackerState, limit: nat, n: NodeId, s: StreamKey, calls: seq<Call>)
    requires Departed(st, st', limit, n, s, calls) && CountsEcho(st.counters, st.sent)
    ensures CountsEcho(st'.counters, st'.sent)
  {
    if Left(st.views[s], n) != map[] {
      var st1 :| Gone(st, st1, n, s) && ReInstructed(st1, st', limit, s, Nbrs(st.views[s], n), calls);
      var run :| ForcedRun(st1, limit, s, calls, run) && st' == LastState(st1, run);
      ForcedRunEcho(st1, limit, s, calls, run);
    }
  }

  lemma {:induction false} DeparturesEcho(st: TrackerState, run: seq<Departure>, limit: nat, n: NodeId)
    requires Departures(st, run, limit, n) && CountsEcho(st.counters, st.sent)
    ensures CountsEcho(Final(st, run).counters, Final(st, run).sent)
  {
    if run == [] {
    } else {
      var k := |run| - 1;
      DeparturesPrefix(st, run, limit, n, k);
      DeparturesEcho(st, run[..k], limit, n);
      DepartedEcho(Final(st, run[..k]), run[k].after, limit, n, run[k].s, run[k].calls);
    }
  }

  lemma StepEcho(st: TrackerState, st': TrackerState, limit: nat, step: Step)
    requires Stepped(st, st', limit, step) && CountsEcho(st.counters, st.sent)
    ensures CountsEcho(st'.counters, st'.sent)
  {
    match step
    case StatusArrived(n, status, h) =>
      if status.singleStream {
        var filtered := Filtered(st.counters, n, status.streams);
        if |filtered| == 1 && Unsubscribes(filtered) {
          var s :| s in filtered && Departed(h.created, h.updated, limit, n, s, h.calls);
          DepartedEcho(h.created, h.updated, limit, n, s, h.calls);
        }
        FormedAllEcho(h.updated, st', limit, n, h.plans, h.batch);
      } else {
        DeparturesEcho(h.reported, h.departures, limit, n);
        FormedAllEcho(h.left, st', limit, n, h.plans, h.batch);
      }
    case NodeDisconnected(n, departures) => DeparturesEcho(st, departures, limit, n);
  }

  lemma {:induction false} RunEcho(limit: nat, run: seq<Reached>)
    requires TrackerRun(limit, run)
    ensures CountsEcho(StateAfter(run).counters, StateAfter(run).sent)
  {
    if run == [] {
      assert forall m, t :: Count(map[], m, t) == 0;
    } else {
      var q, last := run[..|run| - 1], run[|run| - 1];
      RunEcho(limit, q);
      StepEcho(StateAfter(q), last.after, limit, last.step);
    }
  }

  /**
   * After any run of the tracker, a report that echoes the last instruction its node was sent for the
   * stream is heeded. One with a smaller counter, but not -1, is not, as long as no departure of the node
   * has wiped its counters.
   */
  lemma LatestEchoIsHeeded(limit: nat, run: seq<Reached>, n: NodeId, s: StreamKey, entry: StreamStatus, last: int)
    requires TrackerRun(limit, run) && LastCounter(StateAfter(run).sent, s, n) == Some(last)
    ensures entry.counter == last ==> UpToDate(StateAfter(run).counters, n, s, entry)
    ensures UNSUBSCRIBED < entry.counter < last && Count(StateAfter(run).counters, n, s) > 0 ==>
            !UpToDate(StateAfter(run).counters, n, s, entry)
  {
    RunEcho(limit, run);
    assert Echoes(Count(StateAfter(run).counters, n, s), LastCounter(StateAfter(run).sent, s, n));
  }
}
