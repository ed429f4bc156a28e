# Streamr network core: overlays, duplicate detection, message flow

This project models the logic layer of the Streamr peer-to-peer network in Dafny and proves what it is
relied on for: that trackers build overlays which stay connected and stop changing, that nodes emit and
propagate every message once, and that instructions and queued messages are handled in order and settled
once. `dafny verify dfyconfig.toml` checks everything.

The source keeps its state in objects that are changed in place, and so do the classes here:
`OverlayTopology`, `Tracker`, `InstructionCounter`, `DuplicateMessageDetector`, `StreamManager`, `Node`,
`MessageBuffer`, `InstructionThrottler`, `QueueItem`, `MessageQueue` and `Connection`. Each method is proved
against a function or relation on values that describes its effect (`Outcome`, `Mark`, `OnData`, `Added`,
`PutIn`, ...), and the theorems are lemmas about those values, over every input and every run.

Randomness and the outside world are open: `shuffleArray` returns any permutation and `pickRandomElement` any
element, so a call of `formInstructions` is described by a *plan*, the choices it made, and every theorem
holds for every legal plan; that every known node of every graph has one is shown by `FormInstructions`, which
makes one. Which packet arrives next, which timer or handler ends next, are arbitrary too, and what the data
channel answers is an arbitrary input of a flush. Node ids, stream keys, tracker ids and chain keys are abstract types with equality.

Where to start reading:

- `OverlayPlans.dfy`, `OverlayTheorems.dfy`, `OverlayConnectivity.dfy`, `OverlayRuns.dfy`, `OverlayBalance.dfy`:
  one `formInstructions` call, and runs of them.
- `TrackerLedger.dfy`, `TrackerRuns.dfy`, `TrackerBalance.dfy`, `Tracker.dfy`: what statuses and disconnects do to
  all overlays; `TrackerTelling.dfy`, `TrackerEchoes.dfy`: what nodes are told, and which of their answers count.
- `Detector.dfy`, `DetectorRuns.dfy`, `Chains.dfy`, `ChainCapacity.dfy`: the gap list as a set of unseen numbers, and
  message chains; `NodeChains.dfy`: chains at a node, among everything else that reaches it.
- `NodeRuns.dfy`, `NodeDelivery.dfy`, `Node.dfy`, `Flooding.dfy`: a node's messages, and one message in a whole
  network.
- `InstructionThrottler.dfy`, `InstructionHandling.dfy`, `MessageQueue.dfy`, `Connection.dfy`, `MessageBuffer.dfy`.

Where the code does not do what its comments or a reader would expect, the model follows the code, and a lemma
says so: `ConnectivityExact` and `OverfullRunCutsOff` (exactly when a node over its limit can cut others off,
and a run that gets there), `TrimUnderReports` (the nodes it drops are not told), `JoinsConnected` (a limit
below two leaves overlays in pieces), `NewStreamNeedsCounter` and `EmptyOverlayStored` (exactly which statuses
leave an empty overlay behind), `HandledInOrder` and `NegativeCounterOvertakes` (a stored counter of 0 lets
any instruction through), and the result `ok` of `MessageBuffer.Put` (with room for one message, `put` fails
on a non-empty buffer).

## Model

| member | source | states |
|---|---|---|
| OverlayTopologies.OverlayTopology.Update | src/logic/OverlayTopology.ts:53-65 | afterwards the node's neighbours are exactly the reported nodes that were known, other than itself; each other known node has it as a neighbour in exactly that case; links between two other nodes are as before, and no node but the reporter is new |
| Graphs.UpdatedIff | src/logic/OverlayTopology.ts:53-65 | for every graph, node and report, the specification `Updated` is the one graph of which that is true |
| Graphs.UpdatedWellFormed | src/logic/OverlayTopology.ts:53-65 | a report keeps links two-sided, loop-free and between known nodes |
| OverlayTopologies.OverlayTopology.Leave | src/logic/OverlayTopology.ts:67-77 | the node is gone, every other node keeps exactly its neighbours other than it, and its former neighbours are returned |
| Graphs.LeftWellFormed | src/logic/OverlayTopology.ts:67-77 | leaving keeps the graph two-sided, loop-free and closed |
| OverlayTopologies.OverlayTopology.FormInstructions | src/logic/OverlayTopology.ts:92-176 | the loop-and-set code computes the outcome and the instructions of some legal plan, or {} for an unknown node; every node in the result is listed with its new neighbours; a forced call lists the node itself; and for a node within its limit the nodes listed are exactly those whose neighbours have changed, and, if forced, the node |
| OverlayTopologies.OverlayTopology.Rewire | src/logic/OverlayTopology.ts:126-157 | the rewiring loop performs a sequence of splices that it was allowed to choose, and stops when one slot or no target is left |
| OverlayPlans.RewireFindsSecondEnd | src/logic/OverlayTopology.ts:134-138 | `n2candidates` is never empty when the loop takes a target up: by counting, some neighbour of n1 is not linked to the node |
| OverlayPlans.PlanWellFormed | src/logic/OverlayTopology.ts:92-169 | every call keeps the graph two-sided, loop-free and closed, so the neighbor-of-itself throw is unreachable |
| OverlayTheorems.Saturation | src/logic/OverlayTopology.ts:98-157 | afterwards the node has at most `limit` neighbours, and at least `limit - 1` or all other nodes |
| OverlayTheorems.DegreeBound | src/logic/OverlayTopology.ts:92-157 | no node ends above its old degree and above the limit |
| OverlayTheorems.KeepsConnectivity | src/logic/OverlayTopology.ts:105-157 | for a node within the limit, any two nodes that a path joined are still joined |
| OverlayTheorems.TrimIsolatesLeaf | src/logic/OverlayTopology.ts:98-103 | over the limit it can fail: a dropped neighbour without other links is cut off |
| OverlayConnectivity.TrimKeepsJoinedIff | src/logic/OverlayTopology.ts:98-103 | over the limit, a call keeps all joined nodes joined if and only if each dropped neighbour can be reached from a kept one without going through the node |
| OverlayConnectivity.ConnectivityExact | src/logic/OverlayTopology.ts:92-157 | whatever is chosen, a call keeps all joined nodes joined, if and only if the node is not over its limit, or every neighbour is joined around the node to more neighbours, itself included, than the trim drops |
| OverlayConnectivity.OverfullRunCutsOff | src/logic/OverlayTopology.ts:53-103 | a run of three reports and one call, with limit 1, that ends with a node cut off and not told |
| OverlayTheorems.LinksBetweenOthers | src/logic/OverlayTopology.ts:126-157 | a call makes no link between two other nodes, and breaks one only to link both ends to the node, which neither was linked to |
| OverlayTheorems.InstructionsExact | src/logic/OverlayTopology.ts:98-175 | the instructions are exactly the changed nodes with their new neighbours if and only if the node was not over the limit |
| OverlayTheorems.ForcedInstructionsExact | src/logic/OverlayTopology.ts:98-175 | the instructions of a forced call are exactly the changed nodes and the node itself, with their new neighbours, if and only if the node was not over the limit |
| OverlayTheorems.TrimUnderReports | src/logic/OverlayTopology.ts:98-103 | a trim changes some node that it does not report |
| OverlayTheorems.NothingToDoIffSettled | src/logic/OverlayTopology.ts:92-176 | an unforced call returns {} exactly for a settled node (no excess, no open node to link to while a slot is open, no stranger while two are), and then changes nothing |
| OverlayTheorems.Idempotence | src/logic/OverlayTopology.ts:92-176 | a second unforced call in a row returns {} and changes nothing, whatever both calls chose |
| OverlayRuns.MeasureFalls | src/logic/OverlayTopology.ts:122-157 | every unforced call with a non-empty result lowers (total excess, total open slots) lexicographically, the second by two: no never-ending chain of disconnects and connects |
| OverlayRuns.Stabilises | src/logic/OverlayTopology.ts:92-176 | any sequence of calls has boundedly many non-empty results, at most N * limit / 2 when nobody is over the limit |
| OverlayRuns.EveryReachableGraphIsWellFormed | src/logic/OverlayTopology.ts:53-176 | every sequence of updates, leaves and calls keeps the graph invariant |
| OverlayRuns.JoinsKeepBalance | src/logic/OverlayTopology.ts:53-157 | an overlay grown by joins has all degrees between min(limit - 1, N - 1) and limit |
| OverlayBalance.DepartureBalanced | src/logic/OverlayTopology.ts:67-77 | those bounds survive a departure, whatever calls follow it, as long as every former neighbour is called for |
| OverlayBalance.ChangesKeepBalance | src/logic/OverlayTopology.ts:53-157 | they hold after any run of joins, departures with such calls, and calls for any node |
| TrackerBalance.TrackerKeepsBalance | src/logic/Tracker.ts:102-239 | they hold in every overlay after any run of the tracker in which accepted reports agree with the links that the tracker knows |
| OverlayRuns.JoinsConnected | src/logic/OverlayTopology.ts:53-157 | an overlay grown by joins is connected if and only if the limit is at least two or it has at most limit + 1 nodes |
| InstructionCounters.InstructionCounter.SetOrIncrement | src/logic/InstructionCounter.ts:14-18 | one counter goes up by one, missing ones counting as 0, all others stay |
| InstructionCounters.InstructionCounter.FilterStatus | src/logic/InstructionCounter.ts:20-29 | exactly the entries whose counter is not below the count, or is -1, pass as they are, and no count changes |
| TrackerEchoes.LatestEchoIsHeeded | src/logic/InstructionCounter.ts:14-33 | after any run of the tracker a report that echoes the last instruction sent to its node for the stream is heeded, and one with a smaller counter other than -1 is not, unless a departure has wiped the count |
| InstructionCounters.InstructionCounter.RemoveStream | src/logic/InstructionCounter.ts:35-39 | the counts of the stream, and only those, go back to 0 |
| Trackers.Tracker.SendInstructions | src/logic/Tracker.ts:195-211 | exactly one instruction per entry, with its neighbours and the next counter value, and exactly those counters go up |
| Trackers.Tracker.FormAndSendInstructions | src/logic/Tracker.ts:191-214 | each of the given overlays that holds the node becomes the outcome of a legal call, exactly the answers are sent, each with its next counter value |
| Trackers.Tracker.LeaveAndCheckEmptyOverlay | src/logic/Tracker.ts:227-239 | all counters of the node are wiped; an emptied overlay goes with its counters, otherwise every former neighbour gets one forced call |
| TrackerTelling.DepartureTells | src/logic/Tracker.ts:227-239 | after a departure from an overlay with nobody over the limit, the last instruction sent to each former neighbour, and to each node whose neighbours are no longer what the departure left it, lists exactly its neighbours in the end; nobody else was told anything different |
| TrackerTelling.GainedLinkIsListed | src/logic/Tracker.ts:235-237 | so every node that has gained a link was sent an instruction that lists it |
| TrackerTelling.EverybodyKnows | src/logic/Tracker.ts:102-239 | after any run of the tracker in which accepted reports agree with the links that the tracker knows, the last instruction for a node and a stream lists exactly the neighbours, if any, that the node has in the overlay |
| Trackers.Tracker.UpdateNode | src/logic/Tracker.ts:160-174 | accepted reports go into their overlays, then the node departs from each overlay that the status does not list |
| Trackers.Tracker.UpdateOverlays | src/logic/Tracker.ts:161-165 | in each overlay with an accepted report the source is linked to exactly the known nodes of it, other links as before; the other overlays stay |
| Trackers.Tracker.UpdateNodeOnStream | src/logic/Tracker.ts:176-189 | the one accepted report goes in, or with counter -1 the node departs; anything else is without effect |
| Trackers.Tracker.ProcessNodeStatus | src/logic/Tracker.ts:108-130 | the phases follow each other; before instructions are formed each listed overlay has the source linked to exactly the known nodes of its report, other links as before, if the report is accepted, and is the old one if not; each that holds the source is then the outcome of a legal call; the members of every overlay are those of the ledger; a stale report of a settled source changes and sends nothing |
| Trackers.Tracker.OnNodeDisconnected | src/logic/Tracker.ts:102-106 | the node departs from every overlay, once each |
| Trackers.Tracker.CreateNewOverlayTopologies | src/logic/Tracker.ts:152-158 | missing overlays are added, empty; existing ones stay |
| TrackerSteps.FormedKeepsInv | src/logic/Tracker.ts:191-214 | sending instructions keeps: a positive counter means that the node is in the overlay |
| TrackerSteps.DepartedRemoves | src/logic/Tracker.ts:227-239 | whatever the forced calls choose, a departure takes out that node on that stream only, and no other stream's graph changes |
| TrackerLedger.FilteredOutIsMember | src/logic/InstructionCounter.ts:20-29 | a report is only ignored as stale if the node already is in that overlay |
| TrackerLedger.StatusIsLedgerStep | src/logic/Tracker.ts:108-189 | a status with counters from -1 up has the membership effect it announces: listed streams in, others out, counter -1 out |
| TrackerLedger.NewStreamNeedsCounter | src/logic/Tracker.ts:108-189 | any status leaves no stored overlay empty exactly when every new stream in it has a counter of at least -1, and in a single-stream status no other key is accepted beside a new stream |
| TrackerLedger.LedgerIsLastWord | src/logic/Tracker.ts:102-130 | the ledger of announced events holds a node in a stream exactly if the last event about the two said so, and no empty entry |
| TrackerRuns.RunKeepsInv | src/logic/Tracker.ts:102-239 | after any run of statuses and disconnects, whatever the statuses claim, all overlays are well-formed and every positive counter belongs to a member |
| TrackerRuns.NeverEmptyIff | src/logic/Tracker.ts:102-239 | in a run of any statuses no overlay is ever stored empty if and only if every status brings a node into each overlay that it creates |
| TrackerRuns.EmptyOverlayStored | src/logic/Tracker.ts:108-158 | a run of one full status, with counter -2, that leaves an empty overlay behind |
| TrackerRuns.TrackerFollowsLedger | src/logic/Tracker.ts:102-239 | after any run of the tracker with counters from -1 up and one key per single-stream status, the members of the stored overlays are those of the ledger, and none is empty |
| TrackerRuns.TrackerHeedsLastWord | src/logic/Tracker.ts:102-239 | after any such run a node is in a stored overlay exactly if the last event about the two said so |
| TrackerSteps.SettledEverywhere | src/logic/Tracker.ts:191-214 | for a source that is settled in all listed overlays, nothing is sent and nothing changes |
| Numbers.CompareToIsTotalOrder | src/logic/DuplicateMessageDetector.ts:15-41 | the three comparisons decide the lexicographic order with (Infinity, Infinity) on top, and equality |
| Numbers.LessIsStrictTotalOrder | src/logic/DuplicateMessageDetector.ts:1-5 | that order is irreflexive, transitive and total |
| Detectors.DuplicateMessageDetector.MarkAndCheck | src/logic/DuplicateMessageDetector.ts:99-158 | the loop over gaps gives the verdict and the gap list of the specification `Mark`, and keeps the list canonical and bounded |
| Detectors.DuplicateMessageDetector.TakeOut | src/logic/DuplicateMessageDetector.ts:131-141 | the gap at i shrinks, vanishes or is split in two |
| Detectors.MarkKeepsReachable | src/logic/DuplicateMessageDetector.ts:143-148 | the list stays ascending, separated, without empty gaps, ending at Infinity, and within the capacity |
| Detectors.ExactRefinement | src/logic/DuplicateMessageDetector.ts:120-165 | true iff (previous, number] is unseen throughout, and then exactly it is taken out; false iff seen throughout; GapMisMatchError iff mixed; false and errors change nothing |
| Detectors.NullPreviousRefinement | src/logic/DuplicateMessageDetector.ts:112-118 | without predecessor: true iff nothing from the number upwards was seen, and then everything from the newest number up to it is given up |
| GapLists.ScanMeaning | src/logic/DuplicateMessageDetector.ts:120-157 | what the backward search finds, in terms of the unseen numbers |
| GapLists.OrderedUnique | src/logic/DuplicateMessageDetector.ts:93 | two separated ascending lists with the same numbers are equal |
| GapLists.DropLowestUnseen | src/logic/DuplicateMessageDetector.ts:160-165 | over capacity exactly the lowest gap is given up |
| DetectorRuns.AtMostOnce | src/logic/DuplicateMessageDetector.ts:99-158 | over any run, with null predecessors, errors and capacity drops, no number is accepted twice |
| DetectorRuns.RepeatIsDuplicate | src/logic/DuplicateMessageDetector.ts:99-158 | repeating an accepted call after any further run returns false and changes nothing |
| DetectorRuns.FalseStaysFalse | src/logic/DuplicateMessageDetector.ts:99-158 | a call answered with false is answered with false after any other call too |
| Chains.NeverThrows | src/logic/DuplicateMessageDetector.ts:100-102 | a chain delivered in any order, with repeats and drops, never causes an error |
| Chains.AcceptanceWithDrops | src/logic/DuplicateMessageDetector.ts:99-165 | in any run, with drops, a delivery is accepted exactly if it is the first of all, or the first of a message beyond that one whose number was not given up to the capacity |
| Chains.WhatIsUnseen | src/logic/DuplicateMessageDetector.ts:99-165 | in any run, what is unseen is exactly what was neither delivered nor given up |
| Chains.Completeness | src/logic/DuplicateMessageDetector.ts:64-86 | without drops, a delivery is accepted exactly if it is the first of all, or the first of a message beyond that one |
| Chains.OrderIndependence | src/logic/DuplicateMessageDetector.ts:93-158 | without drops, the final list depends only on the first delivery and the set of the others |
| ChainCapacity.NothingDropsIff | src/logic/DuplicateMessageDetector.ts:160-165 | no order of deliveries loses a gap of a chain if and only if the chain has at most twice as many messages as the capacity |
| ChainCapacity.LongChainLosesMessage | src/logic/DuplicateMessageDetector.ts:160-165 | of a longer chain, after every second message was delivered, the first one skipped is refused although it never arrived |
| StreamManagers.StreamManager.MarkNumbersAndCheckThatIsNotDuplicate | src/logic/StreamManager.ts:40-59 | the detector of the message's stream and chain, made at the first message, is asked about the predecessor and the pair of timestamp and sequence number; it alone is marked |
| NodeChains.OwnDetector | src/logic/StreamManager.ts:47-58 | after any messages, the detector of a stream and chain is where exactly the messages of that chain, in their order, have brought it |
| NodeChains.ChainAtStreamManager | src/logic/StreamManager.ts:40-59 | for a publisher's chain, ascending by timestamp and sequence number with each message naming the one before, delivered in any order among any other messages: the next one is called unseen exactly if it is the first, or lies beyond the first delivered, was not delivered before and has not been given up; it causes no error |
| StreamManagers.StreamManager.RemoveNodeFromAllStreams | src/logic/StreamManager.ts:103-113 | the node is out of all inbound and outbound sets, and exactly the streams it was in are returned |
| StreamManagers.StreamManager.GetAllNodesForStream | src/logic/StreamManager.ts:164-168 | exactly the nodes that are inbound or outbound |
| Nodes.Node.OnDataReceived | src/logic/Node.ts:328-373 | the new state is `OnData`: mark, emit if unseen, propagate if unseen or held, ignore otherwise, and nothing but the marking on bad numbering |
| NodeChains.ChainAtNode | src/logic/Node.ts:328-373 | the same at a node after any run of events: the message is emitted as new exactly in that case, and is never called misnumbered |
| NodeChains.ChainEmittedOnce | src/logic/Node.ts:328-373 | of a chain of up to 20000 messages delivered to a new node in any order, any number of times, whatever else happens: the first message delivered and all delivered ones beyond it have been emitted once, the others never, and none was called misnumbered |
| Nodes.Node.PropagateMessage | src/logic/Node.ts:375-431 | handed to all outbound nodes but the source and no longer held, or held and put back to the buffer when there is none |
| Nodes.Node.OnSendEnded | src/logic/Node.ts:393-427 | a send that succeeds clears the node's failure count; one that fails is announced and counted, and the 100th in a row disconnects the node |
| Nodes.Node.HandleBufferedMessages | src/logic/Node.ts:564-569 | all buffered copies of the stream are handled again, in order, from an emptied buffer |
| Nodes.Node.SubscribeToStreamOnNode | src/logic/Node.ts:506-515 | the node is inbound and outbound before the buffer is drained |
| NodeRuns.Trichotomy | src/logic/Node.ts:205-569 | after any run of a node that removes no stream (data, own subscriptions, tracker instructions, nodes coming and going, timeouts, results of sends), each message was never emitted, or emitted once and propagated once, or emitted once and is held, with a buffered copy unless the buffer lost one |
| NodeRuns.StepKeepsInv | src/logic/Node.ts:205-569 | every such event keeps the invariant behind it, among others that buffered copies can never look new again |
| NodeRuns.DrainKeepsInv | src/logic/Node.ts:564-569 | also while drained copies are put back or sent one after the other |
| NodeDelivery.SubscriptionDelivers | src/logic/Node.ts:506-509 | when a node subscribes, a held message goes out if and only if some buffered copy of it came from elsewhere than some outbound node, and otherwise goes on waiting |
| NodeDelivery.NewReceiverGetsIt | src/logic/Node.ts:506-509 | so a copy from elsewhere than the new node is enough |
| NodeDelivery.SubscriptionHandsOver | src/logic/Node.ts:375-431 | it is then handed to all outbound nodes, old and new, other than the source of the first of its buffered copies that can go to one of them |
| NodeDelivery.SubscriptionKeepsOrder | src/logic/Node.ts:564-569 | of two such messages the one whose copy was buffered first is handed over first |
| Nodes.Node.OnNodeDisconnected | src/logic/Node.ts:546-558 | the node is out of all streams; all other nodes are where they were and the counters stay |
| NodeDelivery.FailuresAreStreak | src/logic/Node.ts:393-427 | after any run a node's failure count is the number of its failed sends since the last success, modulo 100 |
| NodeDelivery.EveryHundredthDisconnects | src/logic/Node.ts:420-425 | the result of a send takes the node out of all streams exactly at every hundredth failure in a row |
| NodeRuns.AcceptedOnce | src/logic/StreamManager.ts:53-58 | acceptance takes an unseen number and makes every later copy of the message a duplicate |
| Flooding.FirstArrival | src/logic/Node.ts:362-367 | the first arrival at a node is emitted and sent to all neighbours but the source, or held if there are none |
| Flooding.LaterArrival | src/logic/Node.ts:368-372 | every further arrival is ignored as a duplicate |
| Flooding.StepKeepsFlood | src/logic/Node.ts:328-431 | every delivery, in any interleaving, keeps the flooding invariant |
| Flooding.Flood | src/logic/Node.ts:328-431 | in a connected static overlay of N nodes and E links no run is longer than 2E - N + 1 deliveries, the runs of that length are those with nothing under way, and then every node has emitted the message once and 2E - 2N + 2 deliveries were ignored |
| Flooding.FreshNodesAreReady | src/logic/Node.ts:205-213 | nodes that have only joined the stream are a network that this applies to |
| Flooding.FreshNodeIsReached | src/logic/Node.ts:205-213 | and a run of one stream set-up and the neighbours' subscriptions brings a node there |
| MessageBuffers.MessageBuffer.Put | src/helpers/MessageBuffer.ts:22-37 | with fewer live messages than the maximum all of them stay, otherwise exactly the oldest goes, and the message is appended with its own timer; it fails exactly if the maximum is 0, or 1 and the buffer is not empty |
| MessageBuffers.LivePut | src/helpers/MessageBuffer.ts:22-37 | the same of the live messages of any sequence of puts |
| MessageBuffers.MessageBuffer.Pop | src/helpers/MessageBuffer.ts:39-52 | the oldest live message of the id goes with its timer, an emptied array is deleted |
| MessageBuffers.MessageBuffer.PopAll | src/helpers/MessageBuffer.ts:54-63 | all live messages of the id, in put order, with all their timers |
| MessageBuffers.MessageBuffer.TimerFires | src/helpers/MessageBuffer.ts:33-36 | the oldest armed timer takes out exactly the message it was started for |
| MessageBuffers.OldestTakenOut | src/helpers/MessageBuffer.ts:39-47 | shifting both arrays keeps them aligned with the puts that are neither popped, pushed out nor expired |
| MessageBuffers.LiveInPutOrder | src/helpers/MessageBuffer.ts:32-33 | the live messages of an id are in put order |
| MessageBuffers.LiveAfterOldest | src/helpers/MessageBuffer.ts:39-47 | the other live messages of the id keep their order, other ids are not touched |
| InstructionThrottlers.InstructionThrottler.Add | src/logic/InstructionThrottler.ts:39-60 | an instruction is accepted if none is stored for the stream, and with a stored counter other than 0 exactly if it is not older; it then takes the stream's one place in the queue, and is handed over at once if no handler is running; other streams do not notice |
| InstructionThrottlers.InstructionThrottler.HandlerDone | src/logic/InstructionThrottler.ts:98-105 | a settled handler is followed by the queued instruction, if there is one |
| InstructionThrottlers.OneHandlerAtATime | src/logic/InstructionThrottler.ts:20-105 | after any run at most one handler call is in flight, the latest, and what was accepted last is queued or was handled last |
| InstructionThrottlers.FirstIsHandled | src/logic/InstructionThrottler.ts:39-60 | the first instruction of a stream, whatever its counter, is accepted and handed over at once |
| InstructionThrottlers.AcceptedIffNewest | src/logic/InstructionThrottler.ts:41 | as long as no negative counter follows a greatest one of 0, an instruction is accepted exactly if its counter is at least that of every earlier arrival |
| InstructionThrottlers.AcceptedAreNewestIff | src/logic/InstructionThrottler.ts:39-60 | the instructions accepted in a run are exactly those not older than any earlier arrival, if and only if no negative counter arrives while the greatest so far is 0 |
| InstructionThrottlers.LetThroughInOrderIff | src/logic/InstructionThrottler.ts:39-47 | a sequence of arrivals is let through in the order of the counters if and only if no negative counter arrives while 0 is stored |
| InstructionThrottlers.AcceptedInOrderIff | src/logic/InstructionThrottler.ts:39-105 | the same of the accepted instructions of any run, whenever handlers end |
| InstructionThrottlers.HandledInOrder | src/logic/InstructionThrottler.ts:39-105 | for a sequence of arrivals, the handled counters never decrease, however handlers end, if and only if no negative counter arrives while 0 is stored |
| InstructionThrottlers.NegativeCounterOvertakes | src/logic/InstructionThrottler.ts:41 | with a negative counter after 0 they do |
| InstructionThrottlers.AcceptsIffNotOlder | src/logic/InstructionThrottler.ts:41 | the condition accepts exactly the not older instructions unless 0 is stored and a negative counter arrives |
| InstructionThrottlers.IdleMeansUpToDate | src/logic/InstructionThrottler.ts:71-73 | when idle, nothing is queued and the instruction handled last is the one accepted last |
| InstructionThrottlers.IdleMeansLatestHandled | src/logic/InstructionThrottler.ts:71-105 | so, under that condition, the instruction handled last is the last of those with the greatest counter of all that arrived |
| Nodes.Node.BeginTrackerInstruction | src/logic/Node.ts:280-294 | the stream is set up; of its inbound and outbound nodes exactly the instructed ones stay, nobody comes, and other streams are left alone |
| InstructionHandling.MoveKeepsInv | src/logic/Node.ts:263-298 | at every step the peers are exactly the instructed nodes, except those still connecting or missed that were no peers when the handler started |
| InstructionHandling.Converges | src/logic/Node.ts:263-298 | when idle, if the latest of all instructions that arrived (the last with the greatest counter) came from the expected tracker, inbound and outbound nodes are exactly its `nodeIds` except for missed connections to nodes that were no peers before, and the counter is its counter |
| InstructionHandling.ConvergesToAccepted | src/logic/Node.ts:263-298 | the same, for any counters, of the instruction accepted last |
| MessageQueues.MessageQueue.Add | src/connection/MessageQueue.ts:73-81 | the item waits, untried, behind all others, which stay as they are; a full queue fails its oldest item, and a queue without room throws |
| MessageQueues.MessageQueue.Pop | src/connection/MessageQueue.ts:87-89 | taking the least number takes the oldest item that is left |
| MessageQueues.QueueItem.IncrementTries | src/connection/MessageQueue.ts:43-52 | the tenth try fails the item and calls its error callback |
| MessageQueues.Conservation | src/connection/MessageQueue.ts:73-89 | in every valid state the items added are exactly the queued, the delivered and the failed ones: the numbers add up |
| MessageQueues.HeadDelivered | src/connection/Connection.ts:550-553 | delivering the head keeps every item queued, delivered or failed, settled at most once, and deliveries in the order of adding |
| MessageQueues.MessageQueue.RetryOldest | src/connection/Connection.ts:561-573 | a failed send costs a try; the last one fails the item and removes it |
| Connections.Connection.FlushTurn | src/connection/Connection.ts:521-557 | which of the five outcomes a turn has, given the oldest item, `paused` and what the channel answers, and what it does to the queue; a failed item is never found in it |
| Connections.TurnsEnd | src/connection/Connection.ts:513-557 | every turn that does not block uses up remaining tries |
| Connections.AllDelivered | src/connection/Connection.ts:513-557 | with a channel that takes everything and no message too long, every turn delivers the oldest item left |
| Connections.Connection.AttemptToFlushMessages | src/connection/Connection.ts:513-559 | the flush is a run of such turns, one per answer of the channel; it ends only if finished, without channel, with an empty queue, at a blocked turn, at one that threw or after 10 deliveries; a channel that takes everything gets the oldest min(10, waiting) items, in order; it makes no more failed tries than the queue had left, and leaves messages behind only if paused or rescheduled |

## Left out

- Transport, signalling, HTTP endpoints, resends, metrics, logging, names, locations, round-trip times, storage nodes and version negotiation.
- `InstructionRetryManager`, and `removeStreamId` and `reset` of the throttler while a handler runs: they depend on timers and on a library that is not part of this model.
- String keys: stream, node, tracker and chain keys are abstract, so a stream id with separators, or a publisher id that contains `-`, cannot collide with another.
- Message contents: a message is its id and its predecessor.
- `maxNeighborsPerNode` is a natural number; negative limits are not modelled. Neighbour lists and instructions are sets, without the order of insertion.
- Message numbers are pairs of unbounded integers, with (Infinity, Infinity) as the only non-finite pair; NaN and rounding are not modelled.
- A detector with `maxNumberOfGaps` 0, whose list can become empty again.
- `SeenButNotPropagatedSet` is a plain set, without eviction and ageing.
- `unsubscribeFromStream` at a node: it deletes the stream's detectors, so messages received before can be accepted again.
- Statuses that nodes send: when they are sent and whether they arrive. The timers that close connections to nodes without a shared stream.
- Detectors of all streams are kept in one map by stream and chain, instead of one map per stream.
- NodeRuns.Trichotomy: propagated means handed to the connections; results of sends come later as events of their own. Needs `bufferMaxSize` of at least 2, because with 1 the put of a second copy fails (see MessageBuffers.MessageBuffer.Put).
- Flooding.Flood: links neither lose nor repeat messages, and the overlay does not change during the run.
- MessageBuffers.MessageBuffer.TimerFires: all timers run equally long, so they fire in the order in which they were started; clock time is not modelled. The generic message type is the pair that `Node` stores.
- MessageQueues.MessageQueue.Add: item numbers are given by the caller and ascending, as the counter shared by all queues gives them. `MessageQueue.clear` is left out.
- Delivery: instructions and statuses may be lost on the way; the model says what is sent and what is made of what arrives. A report that names other links than the tracker's is taken over as it is, and the nodes it names are not told (`DepartureTells` holds all the same, `EverybodyKnows` is about runs without such reports).
- Connections.Connection.AttemptToFlushMessages: the channel's answers are inputs, one per turn, and not tied to earlier sends. `isFinished` and the data channel do not change during a flush; `onBufferedAmountLow` and the timers that start the next flush are not modelled.
