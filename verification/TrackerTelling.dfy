/** What nodes have been told: the last instruction sent to a node against the links that the tracker gave it. */
module TrackerTelling {
  import opened Identifiers
  import opened Options
  import opened Collections
  import opened Graphs
  import opened OverlayPlans
  import opened OverlayTheorems
  import opened OverlayRuns
  import opened OverlayBalance
  import opened InstructionCounters
  import opened TrackerSteps
  import opened TrackerLedger
  import opened TrackerRuns
  import opened TrackerBalance

  /** The neighbours in the last instruction for m and s. */
  function LastFor(sent: seq<Instruction>, s: StreamKey, m: NodeId): Option<set<NodeId>> {
    if sent == [] then None
    else
      var last := sent[|sent| - 1];
      if last.nodeId == m && last.streamKey == s then Some(last.neighbors) else LastFor(sent[..|sent| - 1], s, m)
  }

  lemma {:induction false} LastForConcat(a: seq<Instruction>, b: seq<Instruction>, s: StreamKey, m: NodeId)
    ensures LastFor(a + b, s, m) == if LastFor(b, s, m) == None then LastFor(a, s, m) else LastFor(b, s, m)
  {
    if b == [] {
      assert a + b == a;
    } else {
      assert (a + b)[..|a + b| - 1] == a + b[..|b| - 1];
      LastForConcat(a, b[..|b| - 1], s, m);
    }
  }

  /** If all instructions for m and s say the same, the last one does. */
  lemma {:induction false} LastForAgrees(batch: seq<Instruction>, s: StreamKey, m: NodeId, nbrs: set<NodeId>)
    requires forall i :: 0 <= i < |batch| && batch[i].nodeId == m && batch[i].streamKey == s ==>
             batch[i].neighbors == nbrs
    ensures LastFor(batch, s, m) == if Holds(batch, m, s) then Some(nbrs) else None
  {
    if batch == [] {
    } else {
      var q, last := batch[..|batch| - 1], batch[|batch| - 1];
      LastForAgrees(q, s, m, nbrs);
      assert q + [last] == batch;
      if Holds(q, m, s) || (last.nodeId == m && last.streamKey == s) {
        assert last.nodeId == m && last.streamKey == s ==> [last][0].nodeId == m && Holds([last], m, s);
        HoldsGrows(q, [last], m, s);
      }
    }
  }

  ghost predicate IsSent(sent: seq<Instruction>, s: StreamKey, m: NodeId, nbrs: set<NodeId>) {
    exists i :: 0 <= i < |sent| && sent[i].nodeId == m && sent[i].streamKey == s && sent[i].neighbors == nbrs
  }

  lemma {:induction false} LastForIsSent(sent: seq<Instruction>, s: StreamKey, m: NodeId)
    requires LastFor(sent, s, m).Some?
    ensures IsSent(sent, s, m, LastFor(sent, s, m).value)
  {
    var last := sent[|sent| - 1];
    if !(last.nodeId == m && last.streamKey == s) {
      LastForIsSent(sent[..|sent| - 1], s, m);
    }
  }

  // ----- a stretch of instructions -----

  /**
   * Since the graph was g0, every node that was called for, and every node whose neighbours are now others,
   * has been told last what its neighbours are now; nobody has been told anything else last.
   */
  ghost predicate AllTold(g0: Graph, g: Graph, since: seq<Instruction>, s: StreamKey, called: set<NodeId>) {
    forall m ::
      || LastFor(since, s, m) == Some(Nbrs(g, m))
      || (LastFor(since, s, m) == None && Nbrs(g, m) == Nbrs(g0, m) && m !in called)
  }

  lemma AllToldTwice(g0: Graph, g1: Graph, g2: Graph, a: seq<Instruction>, b: seq<Instruction>, s: StreamKey,
                     called: set<NodeId>, more: set<NodeId>)
    requires AllTold(g0, g1, a, s, called) && AllTold(g1, g2, b, s, more)
    ensures AllTold(g0, g2, a + b, s, called + more)
  {
    forall m
      ensures LastFor(a + b, s, m) == Some(Nbrs(g2, m)) ||
              (LastFor(a + b, s, m) == None && Nbrs(g2, m) == Nbrs(g0, m) && m !in called + more)
    {
      LastForConcat(a, b, s, m);
    }
  }

  /** Exactly the answer of a call was sent. */
  ghost predicate PassedOn(batch: seq<Instruction>, s: StreamKey, told: map<NodeId, set<NodeId>>) {
    forall m :: LastFor(batch, s, m) == if m in told then Some(told[m]) else None
  }

  lemma BatchPassesOn(batch: seq<Instruction>, s: StreamKey, told: map<NodeId, set<NodeId>>, c: Counters)
    requires IsBatch(batch, s, told, c)
    ensures PassedOn(batch, s, told)
  {
    forall m ensures LastFor(batch, s, m) == if m in told then Some(told[m]) else None {
      LastForAgrees(batch, s, m, if m in told then told[m] else {});
    }
  }

  lemma PassedOnTells(g: Graph, v: NodeId, limit: nat, force: bool, g': Graph, told: map<NodeId, set<NodeId>>,
                      batch: seq<Instruction>, s: StreamKey)
    requires g'.Keys == g.Keys && Degree(g, v) <= limit && v in g
    requires Tells(g, v, limit, force, g', told) && PassedOn(batch, s, told)
    ensures AllTold(g, g', batch, s, if force then {v} else {})
  {
  }

  /** One call for a node within its limit, and the instructions that come out of it. */
  lemma CallTells(g: Graph, v: NodeId, limit: nat, plan: Plan, force: bool, batch: seq<Instruction>, s: StreamKey)
    requires WellFormed(g) && LegalPlan(g, v, limit, plan) && Degree(g, v) <= limit
    requires PassedOn(batch, s, Instructions(g, v, limit, plan, force))
    ensures AllTold(g, Outcome(g, v, limit, plan), batch, s, if force then {v} else {})
  {
    InstructionsTell(g, v, limit, plan, force);
    SameSize(g, v, limit, plan);
    PassedOnTells(g, v, limit, force, Outcome(g, v, limit, plan), Instructions(g, v, limit, plan, force), batch, s);
  }

  // ----- departures -----

  function CalledFor(calls: seq<Call>): set<NodeId> {
    set i | 0 <= i < |calls| :: calls[i].v
  }

  lemma CalledForLast(calls: seq<Call>)
    requires calls != []
    ensures CalledFor(calls) == CalledFor(calls[..|calls| - 1]) + {calls[|calls| - 1].v}
  {
    var q := calls[..|calls| - 1];
    forall n | n in CalledFor(calls) ensures n in CalledFor(q) + {calls[|calls| - 1].v} {
      var i :| 0 <= i < |calls| && calls[i].v == n;
      assert i == |calls| - 1 || q[i].v == n;
    }
    forall n | n in CalledFor(q) ensures n in CalledFor(calls) {
      var i :| 0 <= i < |q| && q[i].v == n;
      assert calls[i].v == n;
    }
  }

  /** What the calls so far have sent, and that everybody who needs to know has been told. */
  ghost predicate ToldSince(st: TrackerState, st': TrackerState, limit: nat, s: StreamKey, called: set<NodeId>) {
    && st.sent <= st'.sent && s in st.views && s in st'.views && WithinLimit(st'.views[s], limit)
    && AllTold(st.views[s], st'.views[s], st'.sent[|st.sent|..], s, called)
    && OnStream(st'.sent[|st.sent|..], s)
  }

  lemma SentInTwo(a: seq<Instruction>, b: seq<Instruction>, more: seq<Instruction>)
    requires a <= b
    ensures a <= b + more && (b + more)[|a|..] == b[|a|..] + more
  {
  }

  /** One forced call. */
  lemma FormedTells(st: TrackerState, st': TrackerState, limit: nat, s: StreamKey, v: NodeId, plan: Plan,
                    batch: seq<Instruction>)
    requires Inv(st) && s in st.views && v in st.views[s] && WithinLimit(st.views[s], limit)
    requires Formed(st, st', limit, v, s, true, plan, batch)
    ensures s in st'.views && AllTold(st.views[s], st'.views[s], batch, s, {v}) && WithinLimit(st'.views[s], limit)
    ensures st'.sent == st.sent + batch && OnStream(batch, s)
  {
    var g := st.views[s];
    BatchPassesOn(batch, s, Instructions(g, v, limit, plan, true), st.counters);
    CallTells(g, v, limit, plan, true, batch, s);
    CallTakesNothing(g, v, limit, plan);
  }

  lemma ToldSinceMore(st: TrackerState, st1: TrackerState, st2: TrackerState, limit: nat, s: StreamKey,
                      called: set<NodeId>, v: NodeId, batch: seq<Instruction>)
    requires ToldSince(st, st1, limit, s, called) && s in st2.views && WithinLimit(st2.views[s], limit)
    requires AllTold(st1.views[s], st2.views[s], batch, s, {v}) && st2.sent == st1.sent + batch && OnStream(batch, s)
    ensures ToldSince(st, st2, limit, s, called + {v})
  {
    SentInTwo(st.sent, st1.sent, batch);
    AllToldTwice(st.views[s], st1.views[s], st2.views[s], st1.sent[|st.sent|..], batch, s, called, {v});
  }

  lemma {:induction false} ForcedRunTells(st: TrackerState, limit: nat, s: StreamKey, calls: seq<Call>,
                                          run: seq<Answered>)
    requires Inv(st) && s in st.views && WithinLimit(st.views[s], limit) && ForcedRun(st, limit, s, calls, run)
    requires CalledFor(calls) <= st.views[s].Keys
    ensures ToldSince(st, LastState(st, run), limit, s, CalledFor(calls))
    ensures LastState(st, run).views[s].Keys == st.views[s].Keys
  {
    if run == [] {
      assert st.sent[|st.sent|..] == [];
    } else {
      var k := |run| - 1;
      CalledForLast(calls);
      ForcedRunTells(st, limit, s, calls[..k], run[..k]);
      ForcedRunKeepsInv(st, limit, s, calls[..k], run[..k]);
      var st1 := LastState(st, run[..k]);
      FormedKeepsInv(st1, run[k].after, limit, calls[k].v, s, true, calls[k].plan, run[k].batch);
      assert run[k].after.views[s].Keys == Members(run[k].after.views)[s] == Members(st1.views)[s];
      FormedTells(st1, run[k].after, limit, s, calls[k].v, calls[k].plan, run[k].batch);
      ToldSinceMore(st, st1, run[k].after, limit, s, CalledFor(calls[..k]), calls[k].v, run[k].batch);
    }
  }

  lemma {:induction false} NotMoreCalled(calls: seq<Call>)
    ensures |CalledFor(calls)| <= |calls|
  {
    if calls == [] {
      assert CalledFor(calls) == {};
    } else {
      NotMoreCalled(calls[..|calls| - 1]);
      CalledForLast(calls);
    }
  }

  lemma CallsForExactly(calls: seq<Call>, nodes: set<NodeId>)
    requires CallsFor(calls, nodes)
    ensures CalledFor(calls) == nodes
  {
    NotMoreCalled(calls);
    forall m | m in nodes ensures m in CalledFor(calls) {
      var i :| 0 <= i < |calls| && calls[i].v == m;
    }
    SubsetSize(nodes, CalledFor(calls));
  }

  lemma LeftWithinLimit(g: Graph, v: NodeId, limit: nat)
    requires WellFormed(g) && WithinLimit(g, limit)
    ensures WithinLimit(Left(g, v), limit)
  {
    forall n | n in Left(g, v) ensures Degree(Left(g, v), n) <= limit {
      LeftDegrees(g, v, n);
    }
  }

  /** What a departure has sent has told everybody who needs to know. */
  ghost predicate DepartureTold(st: TrackerState, st': TrackerState, n: NodeId, s: StreamKey) {
    && s in st.views && s in st'.views && st.sent <= st'.sent
    && OnStream(st'.sent[|st.sent|..], s)
    && AllTold(Left(st.views[s], n), st'.views[s], st'.sent[|st.sent|..], s, Nbrs(st.views[s], n))
  }

  /**
   * A node leaves an overlay in which nobody is over the limit: every former neighbour, and every node whose
   * neighbours have come to be others than the departure left it, was told last what they are in the end.
   */
  lemma DepartureTells(st: TrackerState, st': TrackerState, limit: nat, n: NodeId, s: StreamKey, calls: seq<Call>)
    requires Inv(st) && Departed(st, st', limit, n, s, calls) && Left(st.views[s], n) != map[]
    requires WithinLimit(st.views[s], limit)
    ensures DepartureTold(st, st', n, s) && WithinLimit(st'.views[s], limit)
  {
    var g := st.views[s];
    var st1 :| Gone(st, st1, n, s) && ReInstructed(st1, st', limit, s, Nbrs(g, n), calls);
    var run :| ForcedRun(st1, limit, s, calls, run) && st' == LastState(st1, run);
    GoneKeepsInv(st, st1, n, s);
    NeighborsRemain(st, st1, n, s);
    LeftWithinLimit(g, n, limit);
    CallsForExactly(calls, Nbrs(g, n));
    ForcedRunTells(st1, limit, s, calls, run);
  }

  /** In particular, a node that has gained a link is sent an instruction that lists it. */
  lemma GainedLinkIsListed(st: TrackerState, st': TrackerState, limit: nat, n: NodeId, s: StreamKey, calls: seq<Call>,
                           m: NodeId, x: NodeId)
    requires Inv(st) && Departed(st, st', limit, n, s, calls) && WithinLimit(st.views[s], limit)
    requires s in st'.views && m != n && x in Nbrs(st'.views[s], m) && x !in Nbrs(st.views[s], m)
    ensures st.sent <= st'.sent
    ensures exists i :: |st.sent| <= i < |st'.sent| && st'.sent[i].nodeId == m && st'.sent[i].streamKey == s &&
                        x in st'.sent[i].neighbors
  {
    DepartureTells(st, st', limit, n, s, calls);
    var since := st'.sent[|st.sent|..];
    assert x !in Nbrs(Left(st.views[s], n), m);
    LastForIsSent(since, s, m);
    var i :| 0 <= i < |since| && since[i].nodeId == m && since[i].streamKey == s && x in since[i].neighbors;
    assert st'.sent[|st.sent| + i] == since[i];
  }

  // ----- everybody knows its neighbours -----

  /** Every node with neighbours, but those in `except`, was told last who they are. */
  ghost predicate KnowBut(g: Graph, sent: seq<Instruction>, s: StreamKey, except: set<NodeId>) {
    forall m :: m !in except && Nbrs(g, m) != {} ==> LastFor(sent, s, m) == Some(Nbrs(g, m))
  }

  /** In every overlay nobody is over the limit, and everybody was told last who its neighbours are. */
  ghost predicate AllKnow(views: Views, sent: seq<Instruction>, limit: nat) {
    forall s :: s in views ==> WithinLimit(views[s], limit) && KnowBut(views[s], sent, s, {})
  }

  lemma ToldKnow(g0: Graph, g: Graph, sent: seq<Instruction>, since: seq<Instruction>, s: StreamKey,
                 called: set<NodeId>)
    requires KnowBut(g0, sent, s, called) && AllTold(g0, g, since, s, called)
    ensures KnowBut(g, sent + since, s, {})
  {
    forall m | Nbrs(g, m) != {} ensures LastFor(sent + since, s, m) == Some(Nbrs(g, m)) {
      LastForConcat(sent, since, s, m);
    }
  }

  lemma {:induction false} OtherStream(batch: seq<Instruction>, t: StreamKey, s: StreamKey, m: NodeId)
    requires OnStream(batch, t) && s != t
    ensures LastFor(batch, s, m) == None
  {
    if batch == [] {
    } else {
      OtherStream(batch[..|batch| - 1], t, s, m);
    }
  }

  lemma OtherStreamKnows(g: Graph, sent: seq<Instruction>, since: seq<Instruction>, s: StreamKey, t: StreamKey)
    requires KnowBut(g, sent, s, {}) && OnStream(since, t) && s != t
    ensures KnowBut(g, sent + since, s, {})
  {
    forall m | Nbrs(g, m) != {} ensures LastFor(sent + since, s, m) == Some(Nbrs(g, m)) {
      LastForConcat(sent, since, s, m);
      OtherStream(since, t, s, m);
    }
  }

  /** Without the departed node, only its former neighbours do not know. */
  lemma LeftKnow(g: Graph, n: NodeId, sent: seq<Instruction>, s: StreamKey)
    requires WellFormed(g) && KnowBut(g, sent, s, {})
    ensures KnowBut(Left(g, n), sent, s, Nbrs(g, n))
  {
    forall m | m !in Nbrs(g, n) && Nbrs(Left(g, n), m) != {} ensures Nbrs(Left(g, n), m) == Nbrs(g, m) {
      assert m in Nbrs(g, n) <==> n in Nbrs(g, m);
    }
  }

  lemma SentSince(a: seq<Instruction>, b: seq<Instruction>)
    requires a <= b
    ensures b == a + b[|a|..]
  {
  }

  lemma DepartureKnows(st: TrackerState, st': TrackerState, limit: nat, n: NodeId, s: StreamKey, calls: seq<Call>)
    requires Inv(st) && Departed(st, st', limit, n, s, calls) && AllKnow(st.views, st.sent, limit)
    ensures AllKnow(st'.views, st'.sent, limit)
  {
    if Left(st.views[s], n) != map[] {
      DepartureTells(st, st', limit, n, s, calls);
      DepartedRemoves(st, st', limit, n, s, calls);
      SentSince(st.sent, st'.sent);
      var since := st'.sent[|st.sent|..];
      LeftKnow(st.views[s], n, st.sent, s);
      ToldKnow(Left(st.views[s], n), st'.views[s], st.sent, since, s, Nbrs(st.views[s], n));
      forall t | t in st'.views && t != s
        ensures WithinLimit(st'.views[t], limit) && KnowBut(st'.views[t], st'.sent, t, {})
      {
        assert t in Members(st'.views) && t in Members(st.views);
        OtherStreamKnows(st.views[t], st.sent, since, t, s);
      }
    }
  }

  lemma {:induction false} DeparturesKnow(st: TrackerState, run: seq<Departure>, limit: nat, n: NodeId)
    requires Inv(st) && Departures(st, run, limit, n) && AllKnow(st.views, st.sent, limit)
    ensures AllKnow(Final(st, run).views, Final(st, run).sent, limit)
  {
    if run == [] {
    } else {
      var k := |run| - 1;
      DeparturesPrefix(st, run, limit, n, k);
      DeparturesKnow(st, run[..k], limit, n);
      DeparturesEffect(st, run[..k], limit, n);
      DepartureKnows(Final(st, run[..k]), run[k].after, limit, n, run[k].s, run[k].calls);
    }
  }

  // ----- the source of a status -----

  lemma AnswersPassOn(st: TrackerState, batch: seq<Instruction>, limit: nat, n: NodeId, plans: map<StreamKey, Plan>,
                      s: StreamKey)
    requires SentAnswers(st, batch, limit, n, plans)
    ensures PassedOn(batch, s, Answer(st, limit, n, plans, s))
  {
    var told := Answer(st, limit, n, plans, s);
    forall m ensures LastFor(batch, s, m) == if m in told then Some(told[m]) else None {
      forall i | 0 <= i < |batch| && batch[i].nodeId == m && batch[i].streamKey == s
        ensures m in told && batch[i].neighbors == told[m]
      {
        assert PassesOn(st, batch[i], limit, n, plans);
      }
      LastForAgrees(batch, s, m, if m in told then told[m] else {});
    }
  }

  lemma NothingTold(g: Graph, batch: seq<Instruction>, s: StreamKey)
    requires PassedOn(batch, s, map[])
    ensures AllTold(g, g, batch, s, {})
  {
  }

  lemma FormedAllTells(st: TrackerState, st': TrackerState, limit: nat, n: NodeId, plans: map<StreamKey, Plan>,
                       batch: seq<Instruction>, s: StreamKey)
    requires Inv(st) && FormedAll(st, st', limit, n, plans, batch) && s in st.views && WithinLimit(st.views[s], limit)
    ensures AllTold(st.views[s], st'.views[s], batch, s, {}) && WithinLimit(st'.views[s], limit)
  {
    AnswersPassOn(st, batch, limit, n, plans, s);
    if s in plans && n in st.views[s] {
      CallTells(st.views[s], n, limit, plans[s], false, batch, s);
      CallTakesNothing(st.views[s], n, limit, plans[s]);
    } else {
      NothingTold(st.views[s], batch, s);
    }
  }

  lemma FormedAllKnow(st: TrackerState, st': TrackerState, limit: nat, n: NodeId, plans: map<StreamKey, Plan>,
                      batch: seq<Instruction>)
    requires Inv(st) && FormedAll(st, st', limit, n, plans, batch) && AllKnow(st.views, st.sent, limit)
    ensures AllKnow(st'.views, st'.sent, limit)
  {
    forall s | s in st'.views ensures WithinLimit(st'.views[s], limit) && KnowBut(st'.views[s], st'.sent, s, {}) {
      FormedAllTells(st, st', limit, n, plans, batch, s);
      ToldKnow(st.views[s], st'.views[s], st.sent, batch, s, {});
    }
  }

  /** A faithful report gives nobody other neighbours. */
  lemma FaithfulKnows(g: Graph, n: NodeId, reported: set<NodeId>, sent: seq<Instruction>, s: StreamKey, limit: nat)
    requires WellFormed(g) && Faithful(g, n, reported) && WithinLimit(g, limit) && KnowBut(g, sent, s, {})
    ensures WithinLimit(Updated(g, n, reported), limit) && KnowBut(Updated(g, n, reported), sent, s, {})
  {
    FaithfulUpdate(g, n, reported);
    if n !in g {
      FreshArrives(g, n);
    }
  }

  lemma TakenKnow(st: TrackerState, views: Views, limit: nat, n: NodeId, keys: set<StreamKey>,
                  taken: map<StreamKey, StreamStatus>)
    requires Inv(st) && AllKnow(st.views, st.sent, limit) && views == Reported(Created(st.views, keys), n, taken)
    requires forall s :: s in taken ==> Faithful(ViewOf(st.views, s), n, taken[s].inboundNodes + taken[s].outboundNodes)
    ensures AllKnow(views, st.sent, limit)
  {
    forall s | s in views ensures WithinLimit(views[s], limit) && KnowBut(views[s], st.sent, s, {}) {
      var before := ViewOf(st.views, s);
      assert WellFormed(before) && WithinLimit(before, limit) && KnowBut(before, st.sent, s, {});
      if s in taken {
        FaithfulKnows(before, n, taken[s].inboundNodes + taken[s].outboundNodes, st.sent, s, limit);
      }
    }
  }

  // ----- events and runs -----

  lemma FullKnow(st: TrackerState, st': TrackerState, limit: nat, n: NodeId, status: Status, h: Handling)
    requires Inv(st) && !status.singleStream && HandledFull(st, st', limit, n, status, h)
    requires AllKnow(st.views, st.sent, limit) && FaithfulStatus(st, n, status)
    ensures AllKnow(st'.views, st'.sent, limit)
  {
    FullKeepsInv(st, st', limit, n, status, h);
    TakenKnow(st, h.reported.views, limit, n, status.streams.Keys, Filtered(st.counters, n, status.streams));
    ReportedKeepsInv(st, limit, n, status, h);
    DeparturesKnow(h.reported, h.departures, limit, n);
    FormedAllKnow(h.left, st', limit, n, h.plans, h.batch);
  }

  lemma UpdatedOneKnow(st: TrackerState, created: TrackerState, updated: TrackerState, limit: nat, n: NodeId,
                       keys: set<StreamKey>, filtered: map<StreamKey, StreamStatus>, calls: seq<Call>)
    requires Inv(st) && Inv(created) && AllKnow(st.views, st.sent, limit)
    requires created.views == Created(st.views, keys) && created.sent == st.sent
    requires UpdatedOne(created, updated, limit, n, filtered, calls)
    requires |filtered| == 1 && !Unsubscribes(filtered) ==>
      forall s :: s in filtered ==>
        Faithful(ViewOf(st.views, s), n, filtered[s].inboundNodes + filtered[s].outboundNodes)
    ensures AllKnow(updated.views, updated.sent, limit)
  {
    assert Reported(created.views, n, map[]) == created.views;
    TakenKnow(st, created.views, limit, n, keys, map[]);
    if |filtered| == 1 {
      if Unsubscribes(filtered) {
        var s :| s in filtered && Departed(created, updated, limit, n, s, calls);
        DepartureKnows(created, updated, limit, n, s, calls);
      } else {
        TakenKnow(st, updated.views, limit, n, keys, filtered);
      }
    }
  }

  lemma SingleKnow(st: TrackerState, st': TrackerState, limit: nat, n: NodeId, status: Status, h: Handling)
    requires Inv(st) && status.singleStream && HandledSingle(st, st', limit, n, status, h)
    requires AllKnow(st.views, st.sent, limit) && FaithfulStatus(st, n, status)
    ensures AllKnow(st'.views, st'.sent, limit)
  {
    var filtered := Filtered(st.counters, n, status.streams);
    SingleKeepsInv(st, st', limit, n, status, h);
    UpdatedOneKnow(st, h.created, h.updated, limit, n, status.streams.Keys, filtered, h.calls);
    FormedAllKnow(h.updated, st', limit, n, h.plans, h.batch);
  }

  lemma StepKnow(st: TrackerState, st': TrackerState, limit: nat, step: Step)
    requires Inv(st) && Stepped(st, st', limit, step) && AllKnow(st.views, st.sent, limit)
    requires step.StatusArrived? ==> FaithfulStatus(st, step.n, step.status)
    ensures AllKnow(st'.views, st'.sent, limit)
  {
    match step
    case StatusArrived(n, status, h) =>
      if status.singleStream {
        SingleKnow(st, st', limit, n, status, h);
      } else {
        FullKnow(st, st', limit, n, status, h);
      }
    case NodeDisconnected(n, departures) => DeparturesKnow(st, departures, limit, n);
  }

  /**
   * After any run of the tracker in which accepted reports agree with what the tracker knows, the last
   * instruction for a node and a stream lists exactly the neighbours that the node has in the overlay; only
   * a node without any may never have been sent one, or not since it lost the last.
   */
  lemma {:induction false} EverybodyKnows(limit: nat, run: seq<Reached>)
    requires TrackerRun(limit, run) && FaithfulRun(run)
    ensures AllKnow(StateAfter(run).views, StateAfter(run).sent, limit)
  {
    if run == [] {
    } else {
      var q, last := run[..|run| - 1], run[|run| - 1];
      EverybodyKnows(limit, q);
      RunKeepsInv(limit, q);
      StepKnow(StateAfter(q), last.after, limit, last.step);
    }
  }
}
