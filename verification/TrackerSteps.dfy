/** The tracker's state as a value, and the effect on it of the steps that a status is made of. */
module TrackerSteps {
  import opened Identifiers
  import opened Collections
  import opened Graphs
  import opened OverlayPlans
  import opened OverlayTheorems
  import opened OverlayRuns
  import opened InstructionCounters

  datatype Status = Status(streams: map<StreamKey, StreamStatus>, singleStream: bool)

  /** One call of TrackerServer.sendInstruction. */
  datatype Instruction = Instruction(nodeId: NodeId, streamKey: StreamKey, neighbors: set<NodeId>, counter: int)

  type Views = map<StreamKey, Graph>

  datatype TrackerState = TrackerState(views: Views, counters: Counters, sent: seq<Instruction>)

  /** Only nodes of an overlay have a positive instruction counter for it; none is negative. */
  ghost predicate Backed(counters: Counters, views: Views) {
    forall n, s :: Count(counters, n, s) >= 0 && (Count(counters, n, s) > 0 ==> s in views && n in views[s])
  }

  ghost predicate AllWellFormed(views: Views) {
    forall s :: s in views ==> WellFormed(views[s])
  }

  ghost predicate Inv(st: TrackerState) {
    AllWellFormed(st.views) && Backed(st.counters, st.views)
  }

  /** Which nodes each stored overlay holds. */
  function Members(views: Views): map<StreamKey, set<NodeId>> {
    map s | s in views :: views[s].Keys
  }

  // ----- sending -----

  /** One instruction per entry, with the counter value that follows the one in c0. */
  ghost predicate IsBatch(batch: seq<Instruction>, s: StreamKey, instructions: map<NodeId, set<NodeId>>, c0: Counters) {
    && |batch| == |instructions|
    && (forall i :: 0 <= i < |batch| ==>
          var n := batch[i].nodeId;
          n in instructions && batch[i] == Instruction(n, s, instructions[n], Count(c0, n, s) + 1))
    && (forall n :: n in instructions ==> exists i :: 0 <= i < |batch| && batch[i].nodeId == n)
  }

  ghost predicate CountedUp(c0: Counters, c1: Counters, s: StreamKey, nodes: set<NodeId>) {
    forall n, t :: Count(c1, n, t) == if t == s && n in nodes then Count(c0, n, t) + 1 else Count(c0, n, t)
  }

  /** The state of the sending loop: the nodes in `done` have got their instruction. */
  ghost predicate SentSoFar(s0: seq<Instruction>, s1: seq<Instruction>, batch: seq<Instruction>, s: StreamKey,
                            instructions: map<NodeId, set<NodeId>>, done: set<NodeId>, c0: Counters, c1: Counters) {
    && s1 == s0 + batch
    && IsBatch(batch, s, map n | n in instructions && n in done :: instructions[n], c0)
    && CountedUp(c0, c1, s, done)
  }

  lemma SentOneMore(s0: seq<Instruction>, s1: seq<Instruction>, batch: seq<Instruction>, s: StreamKey,
                    instructions: map<NodeId, set<NodeId>>, done: set<NodeId>, c0: Counters, c1: Counters,
                    e: Instruction, c2: Counters)
    requires SentSoFar(s0, s1, batch, s, instructions, done, c0, c1)
    requires e.nodeId in instructions && e.nodeId !in done && e.streamKey == s && e.neighbors == instructions[e.nodeId]
    requires e.counter == Count(c1, e.nodeId, s) + 1 && CountedUp(c1, c2, s, {e.nodeId})
    ensures SentSoFar(s0, s1 + [e], batch + [e], s, instructions, done + {e.nodeId}, c0, c2)
  {
    var d := map n | n in instructions && n in done :: instructions[n];
    BatchGrows(batch, s, d, c0, e);
    assert (map n | n in instructions && n in done + {e.nodeId} :: instructions[n]) == d[e.nodeId := e.neighbors];
    CountsGrow(c0, c1, c2, s, done, e.nodeId);
    ConcatAssociative(s0, batch, [e]);
  }

  lemma CountsGrow(c0: Counters, c1: Counters, c2: Counters, s: StreamKey, nodes: set<NodeId>, n: NodeId)
    requires CountedUp(c0, c1, s, nodes) && n !in nodes && CountedUp(c1, c2, s, {n})
    ensures CountedUp(c0, c2, s, nodes + {n})
  {
  }

  lemma BatchGrows(batch: seq<Instruction>, s: StreamKey, done: map<NodeId, set<NodeId>>, c0: Counters, e: Instruction)
    requires IsBatch(batch, s, done, c0) && e.nodeId !in done
    requires e.streamKey == s && e.counter == Count(c0, e.nodeId, s) + 1
    ensures IsBatch(batch + [e], s, done[e.nodeId := e.neighbors], c0)
  {
    var b, d := batch + [e], done[e.nodeId := e.neighbors];
    forall n | n in d ensures exists i :: 0 <= i < |b| && b[i].nodeId == n {
      if n == e.nodeId {
        assert b[|batch|].nodeId == n;
      } else {
        var i :| 0 <= i < |batch| && batch[i].nodeId == n;
        assert b[i].nodeId == n;
      }
    }
  }

  lemma AllSent(s0: seq<Instruction>, s1: seq<Instruction>, batch: seq<Instruction>, s: StreamKey,
                instructions: map<NodeId, set<NodeId>>, c0: Counters, c1: Counters)
    requires SentSoFar(s0, s1, batch, s, instructions, instructions.Keys - {}, c0, c1)
    ensures s1 == s0 + batch && IsBatch(batch, s, instructions, c0) && CountedUp(c0, c1, s, instructions.Keys)
  {
    assert (map n | n in instructions && n in instructions.Keys - {} :: instructions[n]) == instructions;
  }

  ghost predicate Same(st: TrackerState, st': TrackerState) {
    st'.views == st.views && st'.sent == st.sent && SameCounts(st'.counters, st.counters)
  }

  // ----- forming instructions for one node in one overlay -----

  ghost predicate Formed(st: TrackerState, st': TrackerState, limit: nat, n: NodeId, s: StreamKey, force: bool,
                         plan: Plan, batch: seq<Instruction>) {
    if s !in st.views || n !in st.views[s] then Same(st, st') && batch == []
    else
      var g := st.views[s];
      var instructions := Instructions(g, n, limit, plan, force);
      && LegalPlan(g, n, limit, plan)
      && st'.views == st.views[s := Outcome(g, n, limit, plan)]
      && st'.sent == st.sent + batch
      && IsBatch(batch, s, instructions, st.counters)
      && CountedUp(st.counters, st'.counters, s, instructions.Keys)
  }

  /** formInstructions on the overlay, then sending what it returned. */
  lemma FormedInParts(st: TrackerState, st': TrackerState, limit: nat, n: NodeId, s: StreamKey, force: bool,
                      plan: Plan, batch: seq<Instruction>, instructions: map<NodeId, set<NodeId>>, g': Graph)
    requires Inv(st) && s in st.views && st'.views == st.views[s := g']
    requires n !in st.views[s] ==> instructions == map[] && g' == st.views[s]
    requires n in st.views[s] ==>
      && LegalPlan(st.views[s], n, limit, plan)
      && g' == Outcome(st.views[s], n, limit, plan)
      && instructions == Instructions(st.views[s], n, limit, plan, force)
    requires st'.sent == st.sent + batch && IsBatch(batch, s, instructions, st.counters)
    requires CountedUp(st.counters, st'.counters, s, instructions.Keys)
    ensures Formed(st, st', limit, n, s, force, plan, batch) && Inv(st')
  {
    if n !in st.views[s] {
      assert st'.views == st.views && batch == [];
    }
    FormedKeepsInv(st, st', limit, n, s, force, plan, batch);
  }

  lemma CountsStayBacked(c0: Counters, c1: Counters, s: StreamKey, nodes: set<NodeId>, views: Views)
    requires Backed(c0, views) && CountedUp(c0, c1, s, nodes) && s in views && nodes <= views[s].Keys
    ensures Backed(c1, views)
  {
    forall n, t | Count(c1, n, t) > 0 ensures t in views && n in views[t] {
      if t != s || n !in nodes { assert Count(c0, n, t) > 0; }
    }
  }

  lemma ReportedNodes(g: Graph, n: NodeId, limit: nat, plan: Plan)
    requires WellFormed(g) && LegalPlan(g, n, limit, plan)
    ensures plan.added <= g.Keys && Ends(plan.splices) <= g.Keys
  {
    PlanEffect(g, n, limit, plan);
    assert NonNeighbours(Trimmed(g, n, limit, plan.kept), n) <= g.Keys;
    assert NonNeighbours(BeforeSplices(g, n, limit, plan), n) <= g.Keys;
  }

  lemma TouchedNodes(g: Graph, n: NodeId, limit: nat, plan: Plan)
    requires n in g && plan.added <= g.Keys && Ends(plan.splices) <= g.Keys
    ensures Touched(g, n, limit, plan) <= g.Keys
  {
  }

  /** Only nodes of the overlay get instructions. */
  lemma InstructedNodes(g: Graph, n: NodeId, limit: nat, plan: Plan, force: bool)
    requires WellFormed(g) && LegalPlan(g, n, limit, plan)
    ensures Instructions(g, n, limit, plan, force).Keys <= g.Keys
  {
    ReportedNodes(g, n, limit, plan);
    TouchedNodes(g, n, limit, plan);
  }

  lemma FormedKeepsInv(st: TrackerState, st': TrackerState, limit: nat, n: NodeId, s: StreamKey, force: bool,
                       plan: Plan, batch: seq<Instruction>)
    requires Inv(st) && Formed(st, st', limit, n, s, force, plan, batch)
    ensures Inv(st') && Members(st'.views) == Members(st.views)
  {
    if s in st.views && n in st.views[s] {
      var g := st.views[s];
      PlanWellFormed(g, n, limit, plan);
      SameSize(g, n, limit, plan);
      InstructedNodes(g, n, limit, plan, force);
      CountedViewKeepsInv(st, st', s, Outcome(g, n, limit, plan), Instructions(g, n, limit, plan, force).Keys);
    }
  }

  /** An overlay with the same nodes in place of the old one, and instructions counted for some of them. */
  lemma CountedViewKeepsInv(st: TrackerState, st': TrackerState, s: StreamKey, g': Graph, nodes: set<NodeId>)
    requires Inv(st) && s in st.views && WellFormed(g') && g'.Keys == st.views[s].Keys && nodes <= g'.Keys
    requires st'.views == st.views[s := g'] && CountedUp(st.counters, st'.counters, s, nodes)
    ensures Inv(st') && Members(st'.views) == Members(st.views)
  {
    SameMembers(st.views, s, g');
    CountsStayBacked(st.counters, st'.counters, s, nodes, st'.views);
  }

  lemma SameMembers(views: Views, s: StreamKey, g': Graph)
    requires s in views && g'.Keys == views[s].Keys
    ensures Members(views[s := g']) == Members(views)
    ensures forall c :: Backed(c, views) ==> Backed(c, views[s := g'])
  {
  }

  // ----- forming instructions for one node in several overlays -----

  /** What the node's call in overlay t returned; nothing where there was no call. */
  function Answer(st: TrackerState, limit: nat, n: NodeId, plans: map<StreamKey, Plan>, t: StreamKey)
    : map<NodeId, set<NodeId>>
  {
    if t in st.views && n in st.views[t] && t in plans then Instructions(st.views[t], n, limit, plans[t], false)
      else map[]
  }

  /** The graphs after unforced calls in the overlays that plans names. */
  ghost predicate FormedViews(st: TrackerState, views: Views, limit: nat, n: NodeId, plans: map<StreamKey, Plan>) {
    && views.Keys == st.views.Keys
    && (forall t :: t in views ==> if t in plans && n in st.views[t]
          then LegalPlan(st.views[t], n, limit, plans[t]) && views[t] == Outcome(st.views[t], n, limit, plans[t])
          else views[t] == st.views[t])
  }

  /** Instruction e passes on an answer, with the counter value that follows the one in st. */
  ghost predicate PassesOn(st: TrackerState, e: Instruction, limit: nat, n: NodeId, plans: map<StreamKey, Plan>) {
    var answer := Answer(st, limit, n, plans, e.streamKey);
    && e.nodeId in answer && e.neighbors == answer[e.nodeId]
    && e.counter == Count(st.counters, e.nodeId, e.streamKey) + 1
  }

  ghost predicate Holds(batch: seq<Instruction>, m: NodeId, t: StreamKey) {
    exists i :: 0 <= i < |batch| && batch[i].nodeId == m && batch[i].streamKey == t
  }

  /** Exactly the answers were sent. */
  ghost predicate SentAnswers(st: TrackerState, batch: seq<Instruction>, limit: nat, n: NodeId,
                              plans: map<StreamKey, Plan>) {
    && (forall i :: 0 <= i < |batch| ==> PassesOn(st, batch[i], limit, n, plans))
    && (forall m, t :: m in Answer(st, limit, n, plans, t) ==> Holds(batch, m, t))
  }

  ghost predicate CountedAnswers(st: TrackerState, c: Counters, limit: nat, n: NodeId, plans: map<StreamKey, Plan>) {
    forall m, t :: Count(c, m, t) == Count(st.counters, m, t) + (if m in Answer(st, limit, n, plans, t) then 1 else 0)
  }

  ghost predicate FormedAll(st: TrackerState, st': TrackerState, limit: nat, n: NodeId, plans: map<StreamKey, Plan>,
                            batch: seq<Instruction>) {
    && FormedViews(st, st'.views, limit, n, plans)
    && st'.sent == st.sent + batch
    && SentAnswers(st, batch, limit, n, plans)
    && CountedAnswers(st, st'.counters, limit, n, plans)
  }

  lemma AnswersGrow(st: TrackerState, limit: nat, n: NodeId, plans: map<StreamKey, Plan>, s: StreamKey, plan: Plan)
    requires s !in plans
    ensures forall t :: t != s ==> Answer(st, limit, n, plans[s := plan], t) == Answer(st, limit, n, plans, t)
    ensures Answer(st, limit, n, plans, s) == map[]
    ensures s in st.views && n in st.views[s] ==>
      Answer(st, limit, n, plans[s := plan], s) == Instructions(st.views[s], n, limit, plan, false)
    ensures !(s in st.views && n in st.views[s]) ==> Answer(st, limit, n, plans[s := plan], s) == map[]
  {
  }

  lemma HoldsGrows(batch: seq<Instruction>, more: seq<Instruction>, m: NodeId, t: StreamKey)
    requires Holds(batch, m, t) || Holds(more, m, t)
    ensures Holds(batch + more, m, t)
  {
    var all := batch + more;
    if Holds(batch, m, t) {
      var i :| 0 <= i < |batch| && batch[i].nodeId == m && batch[i].streamKey == t;
      assert all[i] == batch[i];
    } else {
      var i :| 0 <= i < |more| && more[i].nodeId == m && more[i].streamKey == t;
      assert all[|batch| + i] == more[i];
    }
  }

  lemma BatchAnswers(st: TrackerState, limit: nat, n: NodeId, plans: map<StreamKey, Plan>,
                     s: StreamKey, plan: Plan, more: seq<Instruction>, c: Counters)
    requires s !in plans && CountedAnswers(st, c, limit, n, plans)
    requires IsBatch(more, s, Answer(st, limit, n, plans[s := plan], s), c)
    ensures forall i :: 0 <= i < |more| ==> PassesOn(st, more[i], limit, n, plans[s := plan])
    ensures forall m :: m in Answer(st, limit, n, plans[s := plan], s) ==> Holds(more, m, s)
  {
    assert Answer(st, limit, n, plans, s) == map[];
    forall m | m in Answer(st, limit, n, plans[s := plan], s) ensures Holds(more, m, s) {
      var i :| 0 <= i < |more| && more[i].nodeId == m;
    }
  }

  lemma SentAnswersGrow(st: TrackerState, batch: seq<Instruction>, limit: nat, n: NodeId, plans: map<StreamKey, Plan>,
                        s: StreamKey, plan: Plan, more: seq<Instruction>, c: Counters)
    requires s !in plans && SentAnswers(st, batch, limit, n, plans) && CountedAnswers(st, c, limit, n, plans)
    requires IsBatch(more, s, Answer(st, limit, n, plans[s := plan], s), c)
    ensures SentAnswers(st, batch + more, limit, n, plans[s := plan])
  {
    AnswersGrow(st, limit, n, plans, s, plan);
    BatchAnswers(st, limit, n, plans, s, plan, more, c);
    var all, plans' := batch + more, plans[s := plan];
    forall i | 0 <= i < |all| ensures PassesOn(st, all[i], limit, n, plans') {
      if i < |batch| { assert PassesOn(st, batch[i], limit, n, plans); }
      else { assert all[i] == more[i - |batch|]; }
    }
    forall m, t | m in Answer(st, limit, n, plans', t) ensures Holds(all, m, t) {
      HoldsGrows(batch, more, m, t);
    }
  }

  lemma CountedAnswersGrow(st: TrackerState, limit: nat, n: NodeId, plans: map<StreamKey, Plan>,
                           s: StreamKey, plan: Plan, c1: Counters, c2: Counters)
    requires s !in plans && CountedAnswers(st, c1, limit, n, plans)
    requires CountedUp(c1, c2, s, Answer(st, limit, n, plans[s := plan], s).Keys)
    ensures CountedAnswers(st, c2, limit, n, plans[s := plan])
  {
    AnswersGrow(st, limit, n, plans, s, plan);
  }

  lemma ViewsGrow(st: TrackerState, views: Views, limit: nat, n: NodeId, plans: map<StreamKey, Plan>, s: StreamKey,
                  plan: Plan)
    requires FormedViews(st, views, limit, n, plans) && s !in plans && s in st.views && n in st.views[s]
    requires LegalPlan(st.views[s], n, limit, plan)
    ensures FormedViews(st, views[s := Outcome(st.views[s], n, limit, plan)], limit, n, plans[s := plan])
  {
  }

  lemma FormedOneMore(st: TrackerState, st1: TrackerState, st2: TrackerState, limit: nat, n: NodeId,
                      plans: map<StreamKey, Plan>, batch: seq<Instruction>, s: StreamKey,
                      plan: Plan, more: seq<Instruction>)
    requires FormedAll(st, st1, limit, n, plans, batch) && s !in plans && s in st.views && n in st.views[s]
    requires Formed(st1, st2, limit, n, s, false, plan, more)
    ensures FormedAll(st, st2, limit, n, plans[s := plan], batch + more)
  {
    assert st1.views[s] == st.views[s];
    AnswersGrow(st, limit, n, plans, s, plan);
    ViewsGrow(st, st1.views, limit, n, plans, s, plan);
    ConcatAssociative(st.sent, batch, more);
    SentAnswersGrow(st, batch, limit, n, plans, s, plan, more, st1.counters);
    CountedAnswersGrow(st, limit, n, plans, s, plan, st1.counters, st2.counters);
  }

  lemma FormedNoMore(st: TrackerState, st1: TrackerState, st2: TrackerState, limit: nat, n: NodeId,
                     plans: map<StreamKey, Plan>, batch: seq<Instruction>)
    requires FormedAll(st, st1, limit, n, plans, batch) && Same(st1, st2)
    ensures FormedAll(st, st2, limit, n, plans, batch)
  {
  }

  /** One turn of the loop over the stream keys. */
  lemma FormedTurn(st: TrackerState, st1: TrackerState, st2: TrackerState, limit: nat, n: NodeId,
                   plans: map<StreamKey, Plan>, batch: seq<Instruction>, s: StreamKey,
                   plan: Plan, more: seq<Instruction>)
    returns (plans': map<StreamKey, Plan>)
    requires FormedAll(st, st1, limit, n, plans, batch) && s !in plans
    requires Formed(st1, st2, limit, n, s, false, plan, more)
    ensures FormedAll(st, st2, limit, n, plans', batch + more)
    ensures plans' == if s in st.views && n in st.views[s] then plans[s := plan] else plans
  {
    assert s in st.views ==> st1.views[s] == st.views[s];
    if s in st.views && n in st.views[s] {
      plans' := plans[s := plan];
      FormedOneMore(st, st1, st2, limit, n, plans, batch, s, plan, more);
    } else {
      plans' := plans;
      assert batch + more == batch;
      FormedNoMore(st, st1, st2, limit, n, plans, batch);
    }
  }

  lemma FormedNothingYet(st: TrackerState, limit: nat, n: NodeId)
    ensures FormedAll(st, st, limit, n, map[], [])
  {
    assert st.sent + [] == st.sent;
  }

  /** The keys that the loop made a call for, out of those it has gone through. */
  function Called(views: Views, n: NodeId, keys: set<StreamKey>): set<StreamKey> {
    set t | t in keys && t in views && n in views[t]
  }

  lemma CalledMore(views: Views, n: NodeId, keys: set<StreamKey>, s: StreamKey)
    ensures Called(views, n, keys + {s}) ==
      if s in views && n in views[s] then Called(views, n, keys) + {s} else Called(views, n, keys)
  {
  }

  lemma FirstPassesOn(st: TrackerState, batch: seq<Instruction>, limit: nat, n: NodeId, plans: map<StreamKey, Plan>)
    requires SentAnswers(st, batch, limit, n, plans) && batch != []
    ensures Answer(st, limit, n, plans, batch[0].streamKey) != map[]
  {
    assert PassesOn(st, batch[0], limit, n, plans);
  }

  lemma SettledEverywhere(st: TrackerState, st': TrackerState, limit: nat, n: NodeId, plans: map<StreamKey, Plan>,
                          batch: seq<Instruction>)
    requires Inv(st) && FormedAll(st, st', limit, n, plans, batch)
    requires forall t :: t in plans && t in st.views && n in st.views[t] ==> Settled(st.views[t], n, limit)
    ensures Same(st, st')
  {
    if batch != [] { FirstPassesOn(st, batch, limit, n, plans); }
    forall t ensures Answer(st, limit, n, plans, t) == map[] && (t in st.views ==> st'.views[t] == st.views[t]) {
      if t in st.views && n in st.views[t] && t in plans {
        NothingToDoIffSettled(st.views[t], n, limit, plans[t]);
      }
    }
    assert st'.views == st.views;
    assert st.sent + [] == st.sent;
  }

  // ----- a node leaves an overlay -----

  /** Every node of s was called for exactly once. */
  ghost predicate CallsFor(calls: seq<Call>, s: set<NodeId>) {
    |calls| == |s| && forall m :: m in s ==> exists i :: 0 <= i < |calls| && calls[i].v == m
  }

  ghost predicate CallsMade(views: Views, views': Views, limit: nat, s: StreamKey, done: set<NodeId>,
                            calls: seq<Call>) {
    && s in views && LegalCalls(views[s], limit, calls) && CallsFor(calls, done)
    && views' == views[s := AfterCalls(views[s], limit, calls)]
  }

  /** What was sent since went out for stream s, and to all of `done` at least. */
  ghost predicate SentFor(sent: seq<Instruction>, sent': seq<Instruction>, s: StreamKey, done: set<NodeId>) {
    exists batch :: sent' == sent + batch && OnStream(batch, s) && forall m :: m in done ==> Holds(batch, m, s)
  }

  ghost predicate OnStream(batch: seq<Instruction>, s: StreamKey) {
    forall i :: 0 <= i < |batch| ==> batch[i].streamKey == s
  }

  /** Counters for s only grow; no other changes. */
  ghost predicate CountsRise(c: Counters, c': Counters, s: StreamKey) {
    forall m, t :: if t == s then Count(c', m, t) >= Count(c, m, t) else Count(c', m, t) == Count(c, m, t)
  }

  /** The forced calls for the nodes in `done`, one after the other, starting from st. */
  ghost predicate ReInstructed(st: TrackerState, st': TrackerState, limit: nat, s: StreamKey, done: set<NodeId>,
                               calls: seq<Call>) {
    && CallsMade(st.views, st'.views, limit, s, done, calls)
    && SentFor(st.sent, st'.sent, s, done)
    && CountsRise(st.counters, st'.counters, s)
    && Forced(st, st', limit, s, calls)
  }

  /** What one of the calls sent, and the state after it. */
  datatype Answered = Answered(batch: seq<Instruction>, after: TrackerState)

  function LastState(st: TrackerState, run: seq<Answered>): TrackerState {
    if run == [] then st else run[|run| - 1].after
  }

  /** Each call is a forced formAndSendInstructions on the state that the calls before it left. */
  ghost predicate ForcedRun(st: TrackerState, limit: nat, s: StreamKey, calls: seq<Call>, run: seq<Answered>) {
    |run| == |calls| &&
    (run != [] ==>
      var k := |run| - 1;
      && ForcedRun(st, limit, s, calls[..k], run[..k])
      && Formed(LastState(st, run[..k]), run[k].after, limit, calls[k].v, s, true, calls[k].plan, run[k].batch))
  }

  ghost predicate Forced(st: TrackerState, st': TrackerState, limit: nat, s: StreamKey, calls: seq<Call>) {
    exists run :: ForcedRun(st, limit, s, calls, run) && st' == LastState(st, run)
  }

  lemma ForcedRunExtends(st: TrackerState, limit: nat, s: StreamKey, calls: seq<Call>, run: seq<Answered>, c: Call,
                         a: Answered)
    requires ForcedRun(st, limit, s, calls, run)
    requires Formed(LastState(st, run), a.after, limit, c.v, s, true, c.plan, a.batch)
    ensures ForcedRun(st, limit, s, calls + [c], run + [a])
  {
    assert (run + [a])[..|run|] == run && (calls + [c])[..|run|] == calls;
  }

  lemma ForcedExtends(st: TrackerState, st1: TrackerState, st2: TrackerState, limit: nat, s: StreamKey,
                      calls: seq<Call>, c: Call, batch: seq<Instruction>)
    requires Forced(st, st1, limit, s, calls) && Formed(st1, st2, limit, c.v, s, true, c.plan, batch)
    ensures Forced(st, st2, limit, s, calls + [c])
  {
    var run :| ForcedRun(st, limit, s, calls, run) && st1 == LastState(st, run);
    ForcedRunExtends(st, limit, s, calls, run, c, Answered(batch, st2));
    assert st2 == LastState(st, run + [Answered(batch, st2)]);
  }

  lemma NothingReInstructed(st: TrackerState, limit: nat, s: StreamKey)
    requires s in st.views
    ensures ReInstructed(st, st, limit, s, {}, [])
  {
    assert st.views[s := st.views[s]] == st.views;
    assert st.sent == st.sent + [] && OnStream([], s);
    assert ForcedRun(st, limit, s, [], []) && st == LastState(st, []);
  }

  lemma CallsExtend(g: Graph, limit: nat, calls: seq<Call>, m: NodeId, plan: Plan)
    requires LegalCalls(g, limit, calls) && LegalPlan(AfterCalls(g, limit, calls), m, limit, plan)
    ensures LegalCalls(g, limit, calls + [Call(m, plan)])
    ensures AfterCalls(g, limit, calls + [Call(m, plan)]) == Outcome(AfterCalls(g, limit, calls), m, limit, plan)
  {
    var all := calls + [Call(m, plan)];
    assert all[..|all| - 1] == calls;
  }

  lemma CallsForGrows(calls: seq<Call>, done: set<NodeId>, c: Call)
    requires CallsFor(calls, done) && c.v !in done
    ensures CallsFor(calls + [c], done + {c.v})
  {
    var all := calls + [c];
    forall n | n in done + {c.v} ensures exists i :: 0 <= i < |all| && all[i].v == n {
      if n == c.v { assert all[|calls|].v == n; }
      else { var i :| 0 <= i < |calls| && calls[i].v == n; assert all[i].v == n; }
    }
  }

  lemma SentForGrows(s0: seq<Instruction>, s1: seq<Instruction>, s: StreamKey, done: set<NodeId>, m: NodeId,
                     more: seq<Instruction>)
    requires SentFor(s0, s1, s, done) && OnStream(more, s) && Holds(more, m, s)
    ensures SentFor(s0, s1 + more, s, done + {m})
  {
    var batch :| s1 == s0 + batch && OnStream(batch, s) && forall m :: m in done ==> Holds(batch, m, s);
    var all := batch + more;
    ConcatAssociative(s0, batch, more);
    forall n | n in done + {m} ensures Holds(all, n, s) {
      HoldsGrows(batch, more, n, s);
    }
    assert OnStream(all, s);
  }

  /** A forced call reports at least the node itself. */
  lemma ForcedBatch(g: Graph, n: NodeId, limit: nat, plan: Plan, batch: seq<Instruction>, s: StreamKey, c: Counters)
    requires IsBatch(batch, s, Instructions(g, n, limit, plan, true), c)
    ensures OnStream(batch, s) && Holds(batch, n, s)
  {
    assert n in Instructions(g, n, limit, plan, true);
    var i :| 0 <= i < |batch| && batch[i].nodeId == n;
  }

  lemma UpdateTwice(views: Views, s: StreamKey, g1: Graph, g2: Graph)
    ensures views[s := g1][s := g2] == views[s := g2]
  {
  }

  lemma CallsMadeMore(views: Views, views1: Views, limit: nat, s: StreamKey, done: set<NodeId>, calls: seq<Call>,
                      m: NodeId, plan: Plan)
    requires CallsMade(views, views1, limit, s, done, calls) && m !in done
    requires LegalPlan(views1[s], m, limit, plan)
    ensures CallsMade(views, views1[s := Outcome(views1[s], m, limit, plan)], limit, s, done + {m},
                      calls + [Call(m, plan)])
  {
    var g1 := AfterCalls(views[s], limit, calls);
    assert views1[s] == g1;
    CallsExtend(views[s], limit, calls, m, plan);
    CallsForGrows(calls, done, Call(m, plan));
    UpdateTwice(views, s, g1, Outcome(g1, m, limit, plan));
  }

  lemma ReInstructedMore(st: TrackerState, st1: TrackerState, st2: TrackerState, limit: nat, s: StreamKey,
                         done: set<NodeId>, calls: seq<Call>, m: NodeId, plan: Plan, batch: seq<Instruction>)
    requires ReInstructed(st, st1, limit, s, done, calls) && m !in done && m in st1.views[s]
    requires Formed(st1, st2, limit, m, s, true, plan, batch)
    ensures ReInstructed(st, st2, limit, s, done + {m}, calls + [Call(m, plan)])
  {
    CallsMadeMore(st.views, st1.views, limit, s, done, calls, m, plan);
    ForcedBatch(st1.views[s], m, limit, plan, batch, s, st1.counters);
    SentForGrows(st.sent, st1.sent, s, done, m, batch);
    ForcedExtends(st, st1, st2, limit, s, calls, Call(m, plan), batch);
  }

  /** removeNode on the instruction counter. */
  ghost predicate Cleared(c: Counters, c': Counters, n: NodeId) {
    forall m, t :: Count(c', m, t) == if m == n then 0 else Count(c, m, t)
  }

  /** The last node of an overlay leaves: the overlay goes, and its counters. */
  ghost predicate Emptied(st: TrackerState, st': TrackerState, n: NodeId, s: StreamKey) {
    && st'.views == st.views - {s} && st'.sent == st.sent
    && forall m, t :: Count(st'.counters, m, t) == if m == n || t == s then 0 else Count(st.counters, m, t)
  }

  /** The state in which the neighbours of a node that has left are re-instructed. */
  ghost predicate Gone(st: TrackerState, st1: TrackerState, n: NodeId, s: StreamKey) {
    && s in st.views && st1.views == st.views[s := Left(st.views[s], n)] && st1.sent == st.sent
    && Cleared(st.counters, st1.counters, n)
  }

  /** leaveAndCheckEmptyOverlay: every former neighbour gets forced instructions. */
  ghost predicate Departed(st: TrackerState, st': TrackerState, limit: nat, n: NodeId, s: StreamKey, calls: seq<Call>) {
    s in st.views &&
    if Left(st.views[s], n) == map[] then Emptied(st, st', n, s)
    else exists st1 :: Gone(st, st1, n, s) && ReInstructed(st1, st', limit, s, Nbrs(st.views[s], n), calls)
  }

  lemma GoneKeepsInv(st: TrackerState, st1: TrackerState, n: NodeId, s: StreamKey)
    requires Inv(st) && Gone(st, st1, n, s)
    ensures Inv(st1) && Members(st1.views) == Members(st.views)[s := st.views[s].Keys - {n}]
  {
    LeftWellFormed(st.views[s], n);
    assert st1.views[s].Keys == st.views[s].Keys - {n};
    assert Members(st1.views).Keys == Members(st.views).Keys;
    forall m, t | Count(st1.counters, m, t) > 0 ensures t in st1.views && m in st1.views[t] {
      assert m != n && Count(st.counters, m, t) > 0;
    }
  }

  lemma EmptiedKeepsInv(st: TrackerState, st': TrackerState, n: NodeId, s: StreamKey)
    requires Inv(st) && s in st.views && Emptied(st, st', n, s)
    ensures Inv(st') && Members(st'.views) == Members(st.views) - {s}
  {
    forall m, t | Count(st'.counters, m, t) > 0 ensures t in st'.views && m in st'.views[t] {
      assert Count(st.counters, m, t) > 0;
    }
  }

  // ----- a node leaves several overlays -----

  /** n leaves the streams in `done`; an overlay that it leaves empty goes. */
  function LeaveSome(m: map<StreamKey, set<NodeId>>, n: NodeId, done: set<StreamKey>): map<StreamKey, set<NodeId>> {
    map s | s in m && (s in done ==> m[s] - {n} != {}) :: if s in done then m[s] - {n} else m[s]
  }

  ghost predicate Removed(st: TrackerState, st': TrackerState, n: NodeId, done: set<StreamKey>) {
    && Members(st'.views) == LeaveSome(Members(st.views), n, done)
    && (forall t :: t in st.views && t !in done ==> t in st'.views && st'.views[t] == st.views[t])
    && st.sent <= st'.sent
    && (forall m, t :: t !in done && m != n ==> Count(st'.counters, m, t) == Count(st.counters, m, t))
  }

  lemma EmptiedRemoves(st: TrackerState, st': TrackerState, n: NodeId, s: StreamKey)
    requires s in st.views && Left(st.views[s], n) == map[] && Emptied(st, st', n, s)
    ensures Removed(st, st', n, {s})
  {
    assert Left(st.views[s], n).Keys == st.views[s].Keys - {n};
    assert Members(st'.views) == Members(st.views) - {s};
    assert LeaveSome(Members(st.views), n, {s}) == Members(st.views) - {s};
  }

  lemma ReInstructedMembers(st: TrackerState, st': TrackerState, limit: nat, s: StreamKey, done: set<NodeId>,
                            calls: seq<Call>)
    requires Inv(st) && ReInstructed(st, st', limit, s, done, calls)
    ensures Members(st'.views) == Members(st.views) && st.sent <= st'.sent
    ensures forall t :: t in st.views && t != s ==> t in st'.views && st'.views[t] == st.views[t]
  {
    CallsLowerPotential(st.views[s], limit, calls);
    SameMembers(st.views, s, st'.views[s]);
  }

  lemma LeaveOne(m: map<StreamKey, set<NodeId>>, n: NodeId, s: StreamKey)
    requires s in m && m[s] - {n} != {}
    ensures LeaveSome(m, n, {s}) == m[s := m[s] - {n}]
  {
  }

  lemma ReInstructedRemoves(st: TrackerState, st1: TrackerState, st': TrackerState, limit: nat, n: NodeId, s: StreamKey,
                            calls: seq<Call>)
    requires Inv(st) && s in st.views && Left(st.views[s], n) != map[]
    requires Gone(st, st1, n, s) && ReInstructed(st1, st', limit, s, Nbrs(st.views[s], n), calls)
    ensures Removed(st, st', n, {s})
  {
    assert Left(st.views[s], n).Keys == st.views[s].Keys - {n} != {};
    GoneKeepsInv(st, st1, n, s);
    ReInstructedMembers(st1, st', limit, s, Nbrs(st.views[s], n), calls);
    LeaveOne(Members(st.views), n, s);
  }

  /** What one departure does to members, other streams and counters, whatever the calls were. */
  lemma DepartedRemoves(st: TrackerState, st': TrackerState, limit: nat, n: NodeId, s: StreamKey, calls: seq<Call>)
    requires Inv(st) && Departed(st, st', limit, n, s, calls)
    ensures Removed(st, st', n, {s})
  {
    if Left(st.views[s], n) == map[] {
      EmptiedRemoves(st, st', n, s);
    } else {
      var st1 :| Gone(st, st1, n, s) && ReInstructed(st1, st', limit, s, Nbrs(st.views[s], n), calls);
      ReInstructedRemoves(st, st1, st', limit, n, s, calls);
    }
  }

  lemma RemovedMore(st: TrackerState, st1: TrackerState, st2: TrackerState, n: NodeId, done: set<StreamKey>,
                    s: StreamKey)
    requires Removed(st, st1, n, done) && Removed(st1, st2, n, {s})
    ensures Removed(st, st2, n, done + {s})
  {
    LeaveTwice(Members(st.views), n, done, s);
  }

  lemma LeaveTwice(m: map<StreamKey, set<NodeId>>, n: NodeId, done: set<StreamKey>, s: StreamKey)
    ensures LeaveSome(LeaveSome(m, n, done), n, {s}) == LeaveSome(m, n, done + {s})
  {
    if s in m { assert m[s] - {n} - {n} == m[s] - {n}; }
  }

  /** One departure: the stream, the calls for the former neighbours, and the state after it. */
  datatype Departure = Departure(s: StreamKey, calls: seq<Call>, after: TrackerState)

  function Final(st: TrackerState, run: seq<Departure>): TrackerState {
    if run == [] then st else run[|run| - 1].after
  }

  ghost predicate Departures(st: TrackerState, run: seq<Departure>, limit: nat, n: NodeId) {
    forall i :: 0 <= i < |run| ==> Departed(Final(st, run[..i]), run[i].after, limit, n, run[i].s, run[i].calls)
  }

  /** n departs from each of the streams once, in some order. */
  ghost predicate LeftAll(st: TrackerState, st': TrackerState, limit: nat, n: NodeId, streams: set<StreamKey>,
                          run: seq<Departure>) {
    Departures(st, run, limit, n) && st' == Final(st, run) && EachOnce(run, streams)
  }

  ghost predicate EachOnce(run: seq<Departure>, streams: set<StreamKey>) {
    |run| == |streams| && forall s :: s in streams ==> exists i :: 0 <= i < |run| && run[i].s == s
  }

  lemma LeftNothing(st: TrackerState, limit: nat, n: NodeId)
    ensures LeftAll(st, st, limit, n, {}, [])
  {
  }

  lemma DeparturesExtend(st: TrackerState, run: seq<Departure>, limit: nat, n: NodeId, d: Departure)
    requires Departures(st, run, limit, n) && Departed(Final(st, run), d.after, limit, n, d.s, d.calls)
    ensures Departures(st, run + [d], limit, n)
  {
    var all := run + [d];
    forall i | 0 <= i < |all| ensures Departed(Final(st, all[..i]), all[i].after, limit, n, all[i].s, all[i].calls) {
      if i < |run| {
        assert all[..i] == run[..i] && all[i] == run[i];
      } else {
        assert all[..i] == run;
      }
    }
  }

  lemma OneMoreOnce(run: seq<Departure>, streams: set<StreamKey>, d: Departure)
    requires EachOnce(run, streams) && d.s !in streams
    ensures EachOnce(run + [d], streams + {d.s})
  {
    var all := run + [d];
    forall t | t in streams + {d.s} ensures exists i :: 0 <= i < |all| && all[i].s == t {
      if t == d.s {
        assert all[|run|].s == t;
      } else {
        var i :| 0 <= i < |run| && run[i].s == t;
        assert all[i].s == t;
      }
    }
  }

  lemma LeftOneMore(st: TrackerState, st1: TrackerState, st2: TrackerState, limit: nat, n: NodeId,
                    streams: set<StreamKey>, run: seq<Departure>, s: StreamKey, calls: seq<Call>)
    requires LeftAll(st, st1, limit, n, streams, run) && Departed(st1, st2, limit, n, s, calls) && s !in streams
    ensures LeftAll(st, st2, limit, n, streams + {s}, run + [Departure(s, calls, st2)])
  {
    DeparturesExtend(st, run, limit, n, Departure(s, calls, st2));
    OneMoreOnce(run, streams, Departure(s, calls, st2));
  }

  lemma NothingRemoved(st: TrackerState, n: NodeId)
    ensures Removed(st, st, n, {})
  {
  }

  lemma ReInstructedTurn(st: TrackerState, st1: TrackerState, st2: TrackerState, limit: nat, s: StreamKey,
                         done: set<NodeId>, calls: seq<Call>, m: NodeId, plan: Plan, batch: seq<Instruction>)
    requires Inv(st) && ReInstructed(st, st1, limit, s, done, calls) && m !in done && m in st.views[s]
    requires Formed(st1, st2, limit, m, s, true, plan, batch)
    ensures ReInstructed(st, st2, limit, s, done + {m}, calls + [Call(m, plan)])
  {
    ReInstructedMembers(st, st1, limit, s, done, calls);
    assert st1.views[s].Keys == Members(st1.views)[s] == Members(st.views)[s] == st.views[s].Keys;
    ReInstructedMore(st, st1, st2, limit, s, done, calls, m, plan, batch);
  }

  lemma EmptiedLast(st: TrackerState, st1: TrackerState, st2: TrackerState, n: NodeId, s: StreamKey)
    requires Inv(st) && Gone(st, st1, n, s) && |st1.views[s]| == 0
    requires st2.views == st1.views - {s} && st2.sent == st1.sent
    requires forall m, t :: Count(st2.counters, m, t) == if t == s then 0 else Count(st1.counters, m, t)
    ensures Left(st.views[s], n) == map[] && Emptied(st, st2, n, s) && Inv(st2)
  {
    assert st.views[s := Left(st.views[s], n)] - {s} == st.views - {s};
    EmptiedKeepsInv(st, st2, n, s);
  }

  lemma NeighborsRemain(st: TrackerState, st1: TrackerState, n: NodeId, s: StreamKey)
    requires Inv(st) && Gone(st, st1, n, s)
    ensures Nbrs(st.views[s], n) <= st1.views[s].Keys
  {
    var g := st.views[s];
    assert WellFormed(g);
    forall m | m in Nbrs(g, n) ensures m in g && m != n {
      assert n !in Nbrs(g, n);
    }
  }
}
