/** Which nodes are in which overlays after each event, and after every run of events. */
module TrackerLedger {
  import opened Identifiers
  import opened Graphs
  import opened OverlayPlans
  import opened OverlayTheorems
  import opened OverlayRuns
  import opened InstructionCounters
  import opened TrackerSteps

  type Membership = map<StreamKey, set<NodeId>>

  // ----- what a status does, step by step -----

  /** createNewOverlayTopologies */
  function Created(views: Views, keys: set<StreamKey>): Views {
    map s | s in views.Keys + keys :: if s in views then views[s] else map[]
  }

  /** The overlays of the accepted streams take over the neighbours that n reports. */
  function Reported(views: Views, n: NodeId, filtered: map<StreamKey, StreamStatus>): Views {
    map s | s in views ::
      if s in filtered then Updated(views[s], n, filtered[s].inboundNodes + filtered[s].outboundNodes) else views[s]
  }

  function AddTo(m: Membership, n: NodeId, keys: set<StreamKey>): Membership {
    map s | s in m :: if s in keys then m[s] + {n} else m[s]
  }

  function WithNew(m: Membership, keys: set<StreamKey>): Membership {
    map s | s in m.Keys + keys :: if s in m then m[s] else {}
  }

  /** The overlays and their nodes after any status, well-formed or not. */
  function StatusMembers(m: Membership, counters: Counters, n: NodeId, status: Status): Membership {
    var filtered := Filtered(counters, n, status.streams);
    var created := WithNew(m, status.streams.Keys);
    if !status.singleStream then LeaveSome(AddTo(created, n, filtered.Keys), n, created.Keys - status.streams.Keys)
    else if |filtered| != 1 then created
    else if Unsubscribes(filtered) then LeaveSome(created, n, filtered.Keys)
    else AddTo(created, n, filtered.Keys)
  }

  predicate Unsubscribes(filtered: map<StreamKey, StreamStatus>) {
    forall s :: s in filtered ==> filtered[s].counter == UNSUBSCRIBED
  }

  lemma CreatedMore(views: Views, keys: set<StreamKey>, s: StreamKey)
    ensures Created(Created(views, keys), {s}) == Created(views, keys + {s})
  {
  }

  /** Missing overlays are added, without nodes; those that are there stay as they are. */
  ghost predicate MissingAdded(views: Views, views': Views, keys: set<StreamKey>) {
    views'.Keys == views.Keys + keys && forall s :: s in views' ==> views'[s] == if s in views then views[s] else map[]
  }

  lemma CreatedAdds(views: Views, keys: set<StreamKey>)
    ensures MissingAdded(views, Created(views, keys), keys)
  {
  }

  lemma CreatedMembers(views: Views, keys: set<StreamKey>)
    ensures Members(Created(views, keys)) == WithNew(Members(views), keys)
  {
    var a, b := Members(Created(views, keys)), WithNew(Members(views), keys);
    assert a.Keys == b.Keys && forall s :: s in a ==> a[s] == b[s];
  }

  lemma CreatedInv(st: TrackerState, st': TrackerState, keys: set<StreamKey>)
    requires Inv(st) && st'.views == Created(st.views, keys) && SameCounts(st'.counters, st.counters)
    ensures Inv(st') && Members(st'.views) == WithNew(Members(st.views), keys)
  {
    forall n, s | Count(st'.counters, n, s) > 0 ensures s in st'.views && n in st'.views[s] {
      assert Count(st.counters, n, s) > 0;
    }
    CreatedMembers(st.views, keys);
  }

  lemma ReportedInv(st: TrackerState, st': TrackerState, n: NodeId, filtered: map<StreamKey, StreamStatus>)
    requires Inv(st) && st'.views == Reported(st.views, n, filtered) && SameCounts(st'.counters, st.counters)
    ensures Inv(st') && Members(st'.views) == AddTo(Members(st.views), n, filtered.Keys)
  {
    forall s | s in st.views ensures WellFormed(st'.views[s]) && st.views[s].Keys <= st'.views[s].Keys {
      var reported := if s in filtered then filtered[s].inboundNodes + filtered[s].outboundNodes else {};
      UpdatedWellFormed(st.views[s], n, reported);
    }
    forall m, s | Count(st'.counters, m, s) > 0 ensures s in st'.views && m in st'.views[s] {
      assert Count(st.counters, m, s) > 0;
    }
    var a, b := Members(st'.views), AddTo(Members(st.views), n, filtered.Keys);
    assert a.Keys == b.Keys;
    forall s | s in a ensures a[s] == b[s] {
      assert st'.views[s].Keys == if s in filtered then st.views[s].Keys + {n} else st.views[s].Keys;
    }
  }

  lemma FormedAllMembers(st: TrackerState, st': TrackerState, limit: nat, n: NodeId, plans: map<StreamKey, Plan>,
                         batch: seq<Instruction>)
    requires Inv(st) && FormedAll(st, st', limit, n, plans, batch)
    ensures Members(st'.views) == Members(st.views)
  {
    forall t | t in st.views ensures st'.views[t].Keys == st.views[t].Keys {
      if t in plans && n in st.views[t] { PlanEffect(st.views[t], n, limit, plans[t]); }
    }
  }

  // ----- a stale report of a settled node -----

  /** A single-stream status that was sent before the node saw its latest instruction. */
  ghost predicate StaleAndSettled(st: TrackerState, n: NodeId, limit: nat, status: Status) {
    && status.singleStream && |status.streams| == 1
    && forall s :: s in status.streams ==>
         && !UpToDate(st.counters, n, s, status.streams[s])
         && s in st.views && (n in st.views[s] ==> Settled(st.views[s], n, limit))
  }

  // ----- well-formed statuses -----

  /** What nodes send: counters from -1 upwards, and one stream per single-stream status. */
  ghost predicate WellFormedStatus(status: Status) {
    && (forall s :: s in status.streams ==> status.streams[s].counter >= UNSUBSCRIBED)
    && (status.singleStream ==> |status.streams| == 1)
  }

  datatype Event =
    | FullStatus(n: NodeId, listed: set<StreamKey>)
    | SingleStatus(n: NodeId, s: StreamKey, unsubscribes: bool)
    | Disconnect(n: NodeId)

  function OldMembers(m: Membership, s: StreamKey): set<NodeId> {
    if s in m then m[s] else {}
  }

  /** The ledger's account of an event. */
  function LedgerStep(m: Membership, e: Event): Membership {
    match e
    case FullStatus(n, listed) =>
      map s | s in m.Keys + listed && (s !in listed ==> m[s] - {n} != {}) ::
        if s in listed then OldMembers(m, s) + {n} else m[s] - {n}
    case SingleStatus(n, s, unsubscribes) =>
      if unsubscribes then LeaveSome(m, n, {s}) else m[s := OldMembers(m, s) + {n}]
    case Disconnect(n) => LeaveSome(m, n, m.Keys)
  }

  ghost predicate NoneEmpty(m: Membership) {
    forall s :: s in m ==> m[s] != {}
  }

  /** The event that a status amounts to. */
  ghost predicate Announces(status: Status, n: NodeId, e: Event) {
    if status.singleStream then
      exists s :: s in status.streams && e == SingleStatus(n, s, status.streams[s].counter == UNSUBSCRIBED)
    else e == FullStatus(n, status.streams.Keys)
  }

  /**
   * A filtered-out report does no harm: its counter shows that the node was sent an instruction
   * for the stream, so the node already is in that overlay.
   */
  lemma FilteredOutIsMember(st: TrackerState, n: NodeId, s: StreamKey, entry: StreamStatus)
    requires Inv(st) && entry.counter >= UNSUBSCRIBED && !UpToDate(st.counters, n, s, entry)
    ensures s in Members(st.views) && n in Members(st.views)[s]
  {
    assert Count(st.counters, n, s) > 0;
  }

  lemma FullLedger(m: Membership, n: NodeId, listed: set<StreamKey>, accepted: set<StreamKey>)
    requires accepted <= listed && forall s :: s in listed && s !in accepted ==> s in m && n in m[s]
    ensures var created := WithNew(m, listed);
      LeaveSome(AddTo(created, n, accepted), n, created.Keys - listed) == LedgerStep(m, FullStatus(n, listed))
  {
    var a := LeaveSome(AddTo(WithNew(m, listed), n, accepted), n, m.Keys + listed - listed);
    var b := LedgerStep(m, FullStatus(n, listed));
    assert a.Keys == b.Keys;
    forall s | s in a ensures a[s] == b[s] {
      if s in listed && s !in accepted { assert m[s] + {n} == m[s]; }
    }
  }

  lemma FullStatusIsLedgerStep(st: TrackerState, n: NodeId, status: Status)
    requires Inv(st) && WellFormedStatus(status) && !status.singleStream
    ensures var m := Members(st.views);
      StatusMembers(m, st.counters, n, status) == LedgerStep(m, FullStatus(n, status.streams.Keys))
  {
    var filtered := Filtered(st.counters, n, status.streams);
    forall s | s in status.streams && s !in filtered ensures s in Members(st.views) && n in Members(st.views)[s] {
      FilteredOutIsMember(st, n, s, status.streams[s]);
    }
    FullLedger(Members(st.views), n, status.streams.Keys, filtered.Keys);
  }

  lemma SubscribedLedger(m: Membership, n: NodeId, s: StreamKey)
    ensures AddTo(WithNew(m, {s}), n, {s}) == LedgerStep(m, SingleStatus(n, s, false))
    ensures s in m && n in m[s] ==> WithNew(m, {s}) == LedgerStep(m, SingleStatus(n, s, false))
  {
    assert s in m && n in m[s] ==> m[s] + {n} == m[s];
  }

  lemma UnsubscribedLedger(m: Membership, n: NodeId, s: StreamKey)
    requires NoneEmpty(m)
    ensures LeaveSome(WithNew(m, {s}), n, {s}) == LedgerStep(m, SingleStatus(n, s, true))
  {
  }

  lemma SingleStatusIsLedgerStep(st: TrackerState, n: NodeId, status: Status, s: StreamKey)
    requires Inv(st) && NoneEmpty(Members(st.views)) && WellFormedStatus(status) && status.singleStream &&
             s in status.streams
    ensures var m := Members(st.views);
      StatusMembers(m, st.counters, n, status) ==
      LedgerStep(m, SingleStatus(n, s, status.streams[s].counter == UNSUBSCRIBED))
  {
    var m := Members(st.views);
    SubscribedLedger(m, n, s);
    UnsubscribedLedger(m, n, s);
    SingleUnfolds(m, st.counters, n, status, s);
    if !UpToDate(st.counters, n, s, status.streams[s]) {
      FilteredOutIsMember(st, n, s, status.streams[s]);
    }
  }

  /**
   * What a status must be like for every overlay that it creates to get its first node: the report
   * counts, and in a single-stream status it is the only one that does.
   */
  predicate NewStreamsJoined(st: TrackerState, n: NodeId, status: Status) {
    forall s :: s in status.streams && s !in st.views ==>
      if status.singleStream then OnlyAccepted(st, n, status, s) else status.streams[s].counter >= UNSUBSCRIBED
  }

  /** The report for the new stream s counts, and no other report of the status does. */
  predicate OnlyAccepted(st: TrackerState, n: NodeId, status: Status, s: StreamKey)
    requires s in status.streams
  {
    && status.streams[s].counter >= UNSUBSCRIBED
    && forall t :: t in status.streams && t != s ==> !UpToDate(st.counters, n, t, status.streams[t])
  }

  lemma NewIsFilteredIn(st: TrackerState, n: NodeId, s: StreamKey, entry: StreamStatus)
    requires Inv(st) && s !in st.views
    ensures UpToDate(st.counters, n, s, entry) <==> entry.counter >= UNSUBSCRIBED
  {
    assert Count(st.counters, n, s) == 0;
  }

  lemma FullNoneEmpty(st: TrackerState, n: NodeId, status: Status)
    requires Inv(st) && NoneEmpty(Members(st.views)) && !status.singleStream
    ensures NoneEmpty(StatusMembers(Members(st.views), st.counters, n, status)) <==> NewStreamsJoined(st, n, status)
  {
    var after := StatusMembers(Members(st.views), st.counters, n, status);
    forall s | s in status.streams && s !in st.views
      ensures s in after && (after[s] != {} <==> status.streams[s].counter >= UNSUBSCRIBED)
    {
      NewIsFilteredIn(st, n, s, status.streams[s]);
    }
  }

  lemma CreatedNoneEmpty(m: Membership, keys: set<StreamKey>)
    requires NoneEmpty(m)
    ensures NoneEmpty(WithNew(m, keys)) <==> keys <= m.Keys
  {
    if s :| s in keys && s !in m {
      assert WithNew(m, keys)[s] == {};
    }
  }

  /** The overlays with one stream taken care of: its node comes in, or it goes if it is empty. */
  lemma OneJoinedNoneEmpty(m: Membership, n: NodeId, keys: set<StreamKey>, t: StreamKey)
    requires NoneEmpty(m) && t in keys
    ensures NoneEmpty(AddTo(WithNew(m, keys), n, {t})) <==> forall s :: s in keys && s !in m ==> s == t
    ensures NoneEmpty(LeaveSome(WithNew(m, keys), n, {t})) <==> forall s :: s in keys && s !in m ==> s == t
  {
    if s :| s in keys && s !in m && s != t {
      assert AddTo(WithNew(m, keys), n, {t})[s] == {} == LeaveSome(WithNew(m, keys), n, {t})[s];
    }
  }

  lemma OneCountsNoneEmpty(m: Membership, n: NodeId, keys: set<StreamKey>, filtered: map<StreamKey, StreamStatus>)
    requires NoneEmpty(m) && |filtered| == 1 && filtered.Keys <= keys
    ensures NoneEmpty(AddTo(WithNew(m, keys), n, filtered.Keys)) <==>
            forall s :: s in keys && s !in m ==> filtered.Keys == {s}
    ensures NoneEmpty(LeaveSome(WithNew(m, keys), n, filtered.Keys)) <==>
            forall s :: s in keys && s !in m ==> filtered.Keys == {s}
  {
    var t :| t in filtered;
    OnlyKey(filtered, t);
    OneJoinedNoneEmpty(m, n, keys, t);
  }

  lemma NotOneCountsNoneEmpty(m: Membership, keys: set<StreamKey>, filtered: map<StreamKey, StreamStatus>)
    requires NoneEmpty(m) && |filtered| != 1
    ensures NoneEmpty(WithNew(m, keys)) <==> forall s :: s in keys && s !in m ==> filtered.Keys == {s}
  {
    CreatedNoneEmpty(m, keys);
    forall s ensures filtered.Keys != {s} {
      assert |filtered.Keys| == |filtered|;
    }
  }

  /** In a single-stream status, a new stream whose report is not the one that counts stays empty. */
  lemma SingleNoneEmpty(m: Membership, c: Counters, n: NodeId, status: Status, filtered: map<StreamKey, StreamStatus>)
    requires NoneEmpty(m) && status.singleStream && filtered == Filtered(c, n, status.streams)
    ensures NoneEmpty(StatusMembers(m, c, n, status)) <==>
            forall s :: s in status.streams && s !in m ==> filtered.Keys == {s}
  {
    if |filtered| == 1 {
      OneCountsNoneEmpty(m, n, status.streams.Keys, filtered);
    } else {
      NotOneCountsNoneEmpty(m, status.streams.Keys, filtered);
    }
  }

  lemma OnlyAcceptedIff(st: TrackerState, n: NodeId, status: Status, s: StreamKey)
    requires Inv(st) && s in status.streams && s !in st.views
    ensures Filtered(st.counters, n, status.streams).Keys == {s} <==> OnlyAccepted(st, n, status, s)
  {
    NewIsFilteredIn(st, n, s, status.streams[s]);
    var filtered := Filtered(st.counters, n, status.streams);
    assert forall t :: t in filtered <==> t in status.streams && UpToDate(st.counters, n, t, status.streams[t]);
  }

  /**
   * A status leaves no stored overlay empty exactly when each overlay that it creates gets its first
   * node: no new stream with a counter below -1, and in a single-stream status no second key that
   * is accepted beside a new stream.
   */
  lemma NewStreamNeedsCounter(st: TrackerState, n: NodeId, status: Status)
    requires Inv(st) && NoneEmpty(Members(st.views))
    ensures NoneEmpty(StatusMembers(Members(st.views), st.counters, n, status)) <==> NewStreamsJoined(st, n, status)
  {
    if !status.singleStream {
      FullNoneEmpty(st, n, status);
    } else {
      SingleNoneEmpty(Members(st.views), st.counters, n, status, Filtered(st.counters, n, status.streams));
      forall s | s in status.streams && s !in st.views
        ensures Filtered(st.counters, n, status.streams).Keys == {s} <==> OnlyAccepted(st, n, status, s)
      {
        OnlyAcceptedIff(st, n, status, s);
      }
    }
  }

  lemma SingleUnfolds(m: Membership, c: Counters, n: NodeId, status: Status, s: StreamKey)
    requires status.singleStream && |status.streams| == 1 && s in status.streams
    ensures StatusMembers(m, c, n, status) ==
      (if !UpToDate(c, n, s, status.streams[s]) then WithNew(m, {s})
       else if status.streams[s].counter == UNSUBSCRIBED then LeaveSome(WithNew(m, {s}), n, {s})
       else AddTo(WithNew(m, {s}), n, {s}))
  {
    var filtered := Filtered(c, n, status.streams);
    OnlyKey(status.streams, s);
    assert |filtered| == |filtered.Keys|;
    if UpToDate(c, n, s, status.streams[s]) {
      assert filtered.Keys == {s} && filtered[s] == status.streams[s];
    } else {
      assert filtered.Keys == {};
    }
  }

  lemma OnlyKey(streams: map<StreamKey, StreamStatus>, s: StreamKey)
    requires |streams| == 1 && s in streams
    ensures streams.Keys == {s}
  {
    assert |streams.Keys - {s}| == 0;
  }

  /** Every well-formed status is the ledger step that it announces. */
  lemma StatusIsLedgerStep(st: TrackerState, n: NodeId, status: Status, e: Event)
    requires Inv(st) && NoneEmpty(Members(st.views)) && WellFormedStatus(status) && Announces(status, n, e)
    ensures StatusMembers(Members(st.views), st.counters, n, status) == LedgerStep(Members(st.views), e)
  {
    if status.singleStream {
      var s :| s in status.streams && e == SingleStatus(n, s, status.streams[s].counter == UNSUBSCRIBED);
      SingleStatusIsLedgerStep(st, n, status, s);
    } else {
      FullStatusIsLedgerStep(st, n, status);
    }
  }

  lemma StatusIsEveryAnnounced(st: TrackerState, n: NodeId, status: Status)
    requires Inv(st)
    ensures forall e :: NoneEmpty(Members(st.views)) && WellFormedStatus(status) && Announces(status, n, e) ==>
      StatusMembers(Members(st.views), st.counters, n, status) == LedgerStep(Members(st.views), e)
  {
    forall e | NoneEmpty(Members(st.views)) && WellFormedStatus(status) && Announces(status, n, e)
      ensures StatusMembers(Members(st.views), st.counters, n, status) == LedgerStep(Members(st.views), e)
    {
      StatusIsLedgerStep(st, n, status, e);
    }
  }

  // ----- runs -----

  function Ledger(events: seq<Event>): Membership {
    if events == [] then map[] else LedgerStep(Ledger(events[..|events| - 1]), events[|events| - 1])
  }

  /** What an event says about n and s, if anything. */
  datatype Word = Silent | In | Out

  function Says(e: Event, n: NodeId, s: StreamKey): Word {
    if e.n != n then Silent
    else match e
      case FullStatus(_, listed) => if s in listed then In else Out
      case SingleStatus(_, t, unsubscribes) => if t != s then Silent else if unsubscribes then Out else In
      case Disconnect(_) => Out
  }

  function LastWord(events: seq<Event>, n: NodeId, s: StreamKey): Word {
    if events == [] then Out
    else
      var w := Says(events[|events| - 1], n, s);
      if w == Silent then LastWord(events[..|events| - 1], n, s) else w
  }

  lemma StepNoneEmpty(m: Membership, e: Event)
    requires NoneEmpty(m)
    ensures NoneEmpty(LedgerStep(m, e))
  {
  }

  lemma StepSays(m: Membership, e: Event, n: NodeId, s: StreamKey)
    requires NoneEmpty(m)
    ensures NoneEmpty(LedgerStep(m, e))
    ensures n in OldMembers(LedgerStep(m, e), s) <==>
            (match Says(e, n, s) case In => true case Out => false case Silent => n in OldMembers(m, s))
  {
  }

  /**
   * After every run of well-formed events, a node is in an overlay exactly when the last event that
   * says something about the two says so, and no stored overlay is empty.
   */
  lemma {:induction false} LedgerIsLastWord(events: seq<Event>, n: NodeId, s: StreamKey)
    ensures n in OldMembers(Ledger(events), s) <==> LastWord(events, n, s) == In
    ensures NoneEmpty(Ledger(events))
  {
    if events == [] {
    } else {
      var q := events[..|events| - 1];
      LedgerIsLastWord(q, n, s);
      StepSays(Ledger(q), events[|events| - 1], n, s);
    }
  }

  /** The accepted reports go into their overlays, and nothing else changes. */
  ghost predicate ReportsGoIn(views: Views, views': Views, n: NodeId, filtered: map<StreamKey, StreamStatus>) {
    && views'.Keys == views.Keys
    && forall s :: s in views ==>
         if s in filtered then TakesReport(views[s], n, filtered[s].inboundNodes + filtered[s].outboundNodes, views'[s])
         else views'[s] == views[s]
  }

  lemma ReportedGoesIn(views: Views, n: NodeId, filtered: map<StreamKey, StreamStatus>)
    ensures ReportsGoIn(views, Reported(views, n, filtered), n, filtered)
  {
    forall s | s in views && s in filtered
      ensures TakesReport(views[s], n, filtered[s].inboundNodes + filtered[s].outboundNodes,
                          Reported(views, n, filtered)[s])
    {
      UpdatedIff(views[s], n, filtered[s].inboundNodes + filtered[s].outboundNodes, Reported(views, n, filtered)[s]);
    }
  }

  // ----- the phases of processNodeStatus, put together -----

  lemma ReportedMore(views: Views, n: NodeId, done: map<StreamKey, StreamStatus>, s: StreamKey, entry: StreamStatus)
    requires s in views && s !in done
    ensures Reported(views, n, done[s := entry]) ==
            Reported(views, n, done)[s := Updated(views[s], n, entry.inboundNodes + entry.outboundNodes)]
  {
  }

  /** The graphs that the instructions are formed on, before any node leaves. */
  function Taken(st: TrackerState, n: NodeId, status: Status): Views {
    Reported(Created(st.views, status.streams.Keys), n, Filtered(st.counters, n, status.streams))
  }

  /** An overlay that is not stored yet has no nodes. */
  function ViewOf(views: Views, s: StreamKey): Graph {
    if s in views then views[s] else map[]
  }

  /** The graph g of stream s with n's report taken over, if the report is not older than n's latest instruction. */
  ghost predicate ReportTakenIn(st: TrackerState, n: NodeId, s: StreamKey, entry: StreamStatus, g: Graph) {
    if UpToDate(st.counters, n, s, entry)
    then TakesReport(ViewOf(st.views, s), n, entry.inboundNodes + entry.outboundNodes, g)
    else g == ViewOf(st.views, s)
  }

  /** After a full status every listed overlay has taken over n's report. */
  ghost predicate AllTaken(st: TrackerState, before: Views, n: NodeId, status: Status) {
    forall s :: s in status.streams ==> s in before && ReportTakenIn(st, n, s, status.streams[s], before[s])
  }

  /** Each of the overlays that holds n is then the outcome of a legal call for n; the others stay. */
  ghost predicate ListedFormed(before: Views, views: Views, limit: nat, n: NodeId, keys: set<StreamKey>,
                               plans: map<StreamKey, Plan>) {
    && views.Keys == before.Keys
    && forall s :: s in before ==>
         && (s in plans <==> s in keys && n in before[s])
         && if s in plans then LegalPlan(before[s], n, limit, plans[s]) &&
           views[s] == Outcome(before[s], n, limit, plans[s])
            else views[s] == before[s]
  }

  /** How a status was handled: the states between the phases, and the choices made in them. */
  datatype Handling =
    | Full(reported: TrackerState, departures: seq<Departure>, left: TrackerState, plans: map<StreamKey, Plan>,
           batch: seq<Instruction>)
    | Single(created: TrackerState, calls: seq<Call>, updated: TrackerState, plans: map<StreamKey, Plan>,
             batch: seq<Instruction>)

  /** A full status: reports go in, the node departs from every other stream, then instructions go out. */
  ghost predicate HandledFull(st: TrackerState, st': TrackerState, limit: nat, n: NodeId, status: Status, h: Handling) {
    && h.Full? && h.reported.views == Taken(st, n, status)
    && SameCounts(h.reported.counters, st.counters) && h.reported.sent == st.sent
    && LeftAll(h.reported, h.left, limit, n, h.reported.views.Keys - status.streams.Keys, h.departures)
    && FormedAll(h.left, st', limit, n, h.plans, h.batch)
    && h.plans.Keys == Called(h.left.views, n, status.streams.Keys)
  }

  /** The one stream of a single-stream status: the report goes in, or the node departs. */
  ghost predicate UpdatedOne(st: TrackerState, st': TrackerState, limit: nat, n: NodeId,
                             filtered: map<StreamKey, StreamStatus>, calls: seq<Call>) {
    if |filtered| != 1 then st' == st
    else if Unsubscribes(filtered) then exists s :: s in filtered && Departed(st, st', limit, n, s, calls)
    else st' == st.(views := Reported(st.views, n, filtered))
  }

  ghost predicate HandledSingle(st: TrackerState, st': TrackerState, limit: nat, n: NodeId, status: Status,
                                h: Handling) {
    && h.Single? && h.created.views == Created(st.views, status.streams.Keys)
    && SameCounts(h.created.counters, st.counters) && h.created.sent == st.sent
    && UpdatedOne(h.created, h.updated, limit, n, Filtered(st.counters, n, status.streams), h.calls)
    && FormedAll(h.updated, st', limit, n, h.plans, h.batch)
    && h.plans.Keys == Called(h.updated.views, n, status.streams.Keys)
  }

  /** The members after the phases of a full status. */
  lemma FullStatusMembers(st: TrackerState, st1: TrackerState, st2: TrackerState, st3: TrackerState, st4: TrackerState,
                          limit: nat, n: NodeId, status: Status, plans: map<StreamKey, Plan>, batch: seq<Instruction>)
    requires Inv(st) && Inv(st3) && !status.singleStream
    requires st1.views == Created(st.views, status.streams.Keys) && SameCounts(st1.counters, st.counters)
    requires st2.views == Reported(st1.views, n, Filtered(st.counters, n, status.streams)) &&
             SameCounts(st2.counters, st1.counters)
    requires Removed(st2, st3, n, st2.views.Keys - status.streams.Keys)
    requires FormedAll(st3, st4, limit, n, plans, batch)
    ensures Members(st4.views) == StatusMembers(Members(st.views), st.counters, n, status)
  {
    CreatedInv(st, st1, status.streams.Keys);
    ReportedInv(st1, st2, n, Filtered(st.counters, n, status.streams));
    FormedAllMembers(st3, st4, limit, n, plans, batch);
    assert st2.views.Keys == WithNew(Members(st.views), status.streams.Keys).Keys;
  }

  lemma TakenReport(st: TrackerState, n: NodeId, status: Status, s: StreamKey)
    requires s in status.streams
    ensures s in Taken(st, n, status) && ReportTakenIn(st, n, s, status.streams[s], Taken(st, n, status)[s])
  {
    var entry := status.streams[s];
    UpdatedIff(ViewOf(st.views, s), n, entry.inboundNodes + entry.outboundNodes, Taken(st, n, status)[s]);
  }

  lemma FullStatusTakes(st: TrackerState, st2: TrackerState, st3: TrackerState, n: NodeId, status: Status)
    requires st2.views == Taken(st, n, status)
    requires Removed(st2, st3, n, st2.views.Keys - status.streams.Keys)
    ensures AllTaken(st, st3.views, n, status)
  {
    forall s | s in status.streams ensures s in st3.views && ReportTakenIn(st, n, s, status.streams[s], st3.views[s]) {
      TakenReport(st, n, status, s);
      assert s !in st2.views.Keys - status.streams.Keys && st3.views[s] == st2.views[s];
    }
  }

  lemma FormedAllForms(st: TrackerState, st': TrackerState, limit: nat, n: NodeId, plans: map<StreamKey, Plan>,
                       batch: seq<Instruction>, keys: set<StreamKey>)
    requires FormedAll(st, st', limit, n, plans, batch) && plans.Keys == Called(st.views, n, keys)
    ensures ListedFormed(st.views, st'.views, limit, n, keys, plans)
  {
  }

  /** The report for s is the only one of the status that counts. */
  predicate OnlyOneAccepted(c: Counters, n: NodeId, streams: map<StreamKey, StreamStatus>, s: StreamKey)
    requires s in streams
  {
    UpToDate(c, n, s, streams[s]) && forall t :: t in streams && t != s ==> !UpToDate(c, n, t, streams[t])
  }

  /**
   * After a single-stream status, each listed overlay is formed on a graph that has taken over n's report, or
   * from which n is gone, if that report is the only one that counts; and on the old graph otherwise.
   */
  ghost predicate OneTaken(st: TrackerState, before: Views, n: NodeId, status: Status) {
    forall s :: s in status.streams ==>
      if !OnlyOneAccepted(st.counters, n, status.streams, s) then s in before && before[s] == ViewOf(st.views, s)
      else if status.streams[s].counter == UNSUBSCRIBED then s in before ==> n !in before[s]
      else s in before && ReportTakenIn(st, n, s, status.streams[s], before[s])
  }

  lemma OnlyOneFiltered(c: Counters, n: NodeId, streams: map<StreamKey, StreamStatus>, s: StreamKey)
    requires s in streams
    ensures OnlyOneAccepted(c, n, streams, s) <==> Filtered(c, n, streams).Keys == {s}
    ensures Filtered(c, n, streams).Keys == {s} ==> |Filtered(c, n, streams)| == 1
  {
    var filtered := Filtered(c, n, streams);
    assert |filtered| == |filtered.Keys|;
    assert forall t :: t in filtered <==> t in streams && UpToDate(c, n, t, streams[t]);
  }

  lemma DepartedOthers(st: TrackerState, st': TrackerState, limit: nat, n: NodeId, s: StreamKey, calls: seq<Call>,
                       t: StreamKey)
    requires Inv(st) && Departed(st, st', limit, n, s, calls)
    ensures t in st.views && t != s ==> t in st'.views && st'.views[t] == st.views[t]
    ensures t == s && t in st'.views ==> n !in st'.views[t]
  {
    DepartedRemoves(st, st', limit, n, s, calls);
    if s in st'.views {
      assert s in Members(st'.views) && Members(st'.views)[s] == Members(st.views)[s] - {n};
    }
  }

  lemma UpdatedOneTakes(st: TrackerState, st1: TrackerState, st2: TrackerState, limit: nat, n: NodeId, status: Status,
                        calls: seq<Call>)
    requires Inv(st1) && st1.views == Created(st.views, status.streams.Keys)
    requires UpdatedOne(st1, st2, limit, n, Filtered(st.counters, n, status.streams), calls)
    ensures OneTaken(st, st2.views, n, status)
  {
    var filtered := Filtered(st.counters, n, status.streams);
    forall s | s in status.streams
      ensures
        if !OnlyOneAccepted(st.counters, n, status.streams, s)
          then s in st2.views && st2.views[s] == ViewOf(st.views, s)
        else if status.streams[s].counter == UNSUBSCRIBED then s in st2.views ==> n !in st2.views[s]
        else s in st2.views && ReportTakenIn(st, n, s, status.streams[s], st2.views[s])
    {
      OnlyOneFiltered(st.counters, n, status.streams, s);
      if |filtered| == 1 {
        var t :| t in filtered;
        OnlyKey(filtered, t);
        if Unsubscribes(filtered) {
          DepartedOthers(st1, st2, limit, n, t, calls, s);
        } else {
          TakenReport(st, n, status, s);
        }
      }
    }
  }

  /** A single-stream status that is accepted: the node reports, or leaves. */
  lemma SingleStatusPhases(st: TrackerState, st1: TrackerState, st2: TrackerState, st3: TrackerState,
                           limit: nat, n: NodeId, status: Status, plans: map<StreamKey, Plan>, batch: seq<Instruction>)
    requires Inv(st) && Inv(st2) && status.singleStream
    requires st1.views == Created(st.views, status.streams.Keys) && SameCounts(st1.counters, st.counters)
    requires var filtered := Filtered(st.counters, n, status.streams);
      if |filtered| != 1 then st2 == st1
      else if Unsubscribes(filtered) then Removed(st1, st2, n, filtered.Keys)
      else st2.views == Reported(st1.views, n, filtered) && SameCounts(st2.counters, st1.counters)
    requires FormedAll(st2, st3, limit, n, plans, batch)
    ensures Members(st3.views) == StatusMembers(Members(st.views), st.counters, n, status)
  {
    CreatedInv(st, st1, status.streams.Keys);
    FormedAllMembers(st2, st3, limit, n, plans, batch);
    var filtered := Filtered(st.counters, n, status.streams);
    if |filtered| == 1 && !Unsubscribes(filtered) {
      ReportedInv(st1, st2, n, filtered);
    }
  }

  lemma NothingCreated(views: Views, keys: set<StreamKey>)
    requires keys <= views.Keys
    ensures Created(views, keys) == views
  {
  }

  lemma NothingAccepted(st: TrackerState, n: NodeId, limit: nat, status: Status)
    requires StaleAndSettled(st, n, limit, status)
    ensures Filtered(st.counters, n, status.streams) == map[]
  {
  }

  lemma StalePhases(st: TrackerState, st1: TrackerState, st2: TrackerState, limit: nat, n: NodeId, status: Status,
                    plans: map<StreamKey, Plan>, batch: seq<Instruction>)
    requires Inv(st) && StaleAndSettled(st, n, limit, status)
    requires st1.views == Created(st.views, status.streams.Keys) && SameCounts(st1.counters, st.counters) &&
             st1.sent == st.sent
    requires FormedAll(st1, st2, limit, n, plans, batch) && plans.Keys == Called(st1.views, n, status.streams.Keys)
    ensures Same(st, st2)
  {
    CreatedInv(st, st1, status.streams.Keys);
    NothingCreated(st.views, status.streams.Keys);
    forall t | t in plans && t in st1.views && n in st1.views[t] ensures Settled(st1.views[t], n, limit) {
      assert t in status.streams;
    }
    SettledEverywhere(st1, st2, limit, n, plans, batch);
  }

  lemma CountersSame(st: TrackerState, st': TrackerState)
    requires Inv(st) && st'.views == st.views && SameCounts(st'.counters, st.counters)
    ensures Inv(st')
  {
    forall n, s | Count(st'.counters, n, s) > 0 ensures s in st'.views && n in st'.views[s] {
      assert Count(st.counters, n, s) > 0;
    }
  }

  lemma FullStatusEffect(st: TrackerState, st': TrackerState, limit: nat, n: NodeId, status: Status, h: Handling)
    requires Inv(st) && !status.singleStream && HandledFull(st, st', limit, n, status, h) && Inv(h.left)
    requires Removed(h.reported, h.left, n, h.reported.views.Keys - status.streams.Keys)
    ensures Members(st'.views) == StatusMembers(Members(st.views), st.counters, n, status)
    ensures AllTaken(st, h.left.views, n, status)
    ensures ListedFormed(h.left.views, st'.views, limit, n, status.streams.Keys, h.plans)
    ensures !StaleAndSettled(st, n, limit, status)
  {
    var st1 := st.(views := Created(st.views, status.streams.Keys));
    FullStatusMembers(st, st1, h.reported, h.left, st', limit, n, status, h.plans, h.batch);
    FullStatusTakes(st, h.reported, h.left, n, status);
    FormedAllForms(h.left, st', limit, n, h.plans, h.batch, status.streams.Keys);
  }

  lemma UpdatedOneRemoves(st: TrackerState, st': TrackerState, limit: nat, n: NodeId,
                          filtered: map<StreamKey, StreamStatus>, calls: seq<Call>)
    requires Inv(st) && UpdatedOne(st, st', limit, n, filtered, calls) && |filtered| == 1 && Unsubscribes(filtered)
    ensures Removed(st, st', n, filtered.Keys)
  {
    var s :| s in filtered && Departed(st, st', limit, n, s, calls);
    OnlyKey(filtered, s);
    DepartedRemoves(st, st', limit, n, s, calls);
  }

  lemma SingleStatusEffect(st: TrackerState, st': TrackerState, limit: nat, n: NodeId, status: Status, h: Handling)
    requires Inv(st) && status.singleStream && HandledSingle(st, st', limit, n, status, h) && Inv(h.created) &&
             Inv(h.updated)
    ensures Members(st'.views) == StatusMembers(Members(st.views), st.counters, n, status)
    ensures OneTaken(st, h.updated.views, n, status)
    ensures ListedFormed(h.updated.views, st'.views, limit, n, status.streams.Keys, h.plans)
    ensures StaleAndSettled(st, n, limit, status) ==> Same(st, st')
  {
    UpdatedOneTakes(st, h.created, h.updated, limit, n, status, h.calls);
    FormedAllForms(h.updated, st', limit, n, h.plans, h.batch, status.streams.Keys);
    var filtered := Filtered(st.counters, n, status.streams);
    if |filtered| == 1 && Unsubscribes(filtered) {
      UpdatedOneRemoves(h.created, h.updated, limit, n, filtered, h.calls);
    }
    SingleStatusPhases(st, h.created, h.updated, st', limit, n, status, h.plans, h.batch);
    if StaleAndSettled(st, n, limit, status) {
      NothingAccepted(st, n, limit, status);
      StalePhases(st, h.created, st', limit, n, status, h.plans, h.batch);
    }
  }

  lemma DisconnectLeaves(m: Membership, n: NodeId)
    ensures LeaveSome(m, n, m.Keys) == LedgerStep(m, Disconnect(n))
  {
  }
}
