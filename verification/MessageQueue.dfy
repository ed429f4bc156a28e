/** Messages waiting to be sent over one connection: src/connection/MessageQueue.ts. */
module MessageQueues {
  const MAX_TRIES: nat := 10

  /** A call of one of the callbacks that settle the promise of `add`. */
  datatype Settlement = Resolved | Rejected

  class QueueItem {
    const message: string
    const no: int
    var tries: nat
    var failed: bool
    /** All callback calls so far. */
    ghost var settled: seq<Settlement>

    constructor (message: string, no: int)
      ensures this.message == message && this.no == no && tries == 0 && !failed && settled == []
    {
      this.message, this.no, tries, failed, settled := message, no, 0, false, [];
    }

    method Delivered()
      modifies this`settled
      ensures settled == old(settled) + [Resolved]
    {
      settled := settled + [Resolved];
    }

    method IncrementTries()
      modifies this
      ensures tries == old(tries) + 1 && failed == (old(failed) || tries >= MAX_TRIES)
      ensures settled == if failed then old(settled) + [Rejected] else old(settled)
    {
      tries := tries + 1;
      if tries >= MAX_TRIES {
        failed := true;
      }
      if failed {
        settled := settled + [Rejected];
      }
    }

    method ImmediateFail()
      modifies this`failed, this`settled
      ensures failed && settled == old(settled) + [Rejected]
    {
      failed := true;
      settled := settled + [Rejected];
    }

    ghost function State(): ItemState
      reads this
    {
      ItemState(tries, failed, settled)
    }
  }

  datatype ItemState = ItemState(tries: nat, failed: bool, settled: seq<Settlement>) {
    predicate Waiting() {
      !failed && tries < MAX_TRIES && settled == []
    }

    /** Settled once: delivered, or failed. */
    predicate Done() {
      settled == [Resolved] || (settled == [Rejected] && failed)
    }
  }

  ghost predicate AreStates(items: seq<QueueItem>, states: seq<ItemState>)
    reads items
  {
    |items| == |states| && forall k :: 0 <= k < |items| ==> items[k].State() == states[k]
  }

  ghost predicate InOrderOfAdding(added: seq<QueueItem>) {
    forall j, k :: 0 <= j < k < |added| ==> added[j].no < added[k].no
  }

  ghost function RestOf(added: seq<QueueItem>, gone: nat): set<QueueItem> {
    set k | gone <= k < |added| :: added[k]
  }

  /** The items added after the first `gone`. */
  ghost predicate HoldsRest(heap: set<QueueItem>, added: seq<QueueItem>, gone: nat) {
    gone <= |added| && heap == RestOf(added, gone)
  }

  /** Positions of delivered items, in the order of delivery, are ascending. */
  ghost predicate Ascending(log: seq<nat>) {
    forall i, j :: 0 <= i < j < |log| ==> log[i] < log[j]
  }

  ghost predicate Shaped(heap: set<QueueItem>, added: seq<QueueItem>, gone: nat) {
    InOrderOfAdding(added) && HoldsRest(heap, added, gone) && |heap| == |added| - gone
  }

  /**
   * Popped items are settled, exactly those in `delivered` by delivery, in the order they were added;
   * queued ones wait, and only the first of them has been tried.
   */
  ghost predicate StatesValid(states: seq<ItemState>, gone: nat, delivered: seq<nat>) {
    && gone <= |states| && Ascending(delivered)
    && (forall k :: 0 <= k < gone ==> states[k].Done() && (k in delivered <==> states[k].settled == [Resolved]))
    && (forall k :: gone <= k < |states| ==> states[k].Waiting() && (k > gone ==> states[k].tries == 0))
    && (forall k :: k in delivered ==> k < gone)
  }

  /** How many more failed tries the queued items can take. */
  function TriesLeft(states: seq<ItemState>, gone: nat): int {
    MAX_TRIES * (|states| - gone) - if gone < |states| then states[gone].tries else 0
  }

  /** All failed tries of the first n items. */
  function TotalTries(states: seq<ItemState>, n: nat): nat
    requires n <= |states|
  {
    if n == 0 then 0 else TotalTries(states, n - 1) + states[n - 1].tries
  }

  lemma {:induction false} TriesOfOne(states: seq<ItemState>, k: nat, state: ItemState, n: nat)
    requires k < |states| && n <= |states|
    ensures TotalTries(states[k := state], n) ==
            TotalTries(states, n) + if k < n then state.tries - states[k].tries else 0
  {
    if n == 0 {
    } else {
      TriesOfOne(states, k, state, n - 1);
    }
  }

  lemma HeadDelivered(states: seq<ItemState>, gone: nat, delivered: seq<nat>, head: ItemState)
    requires StatesValid(states, gone, delivered) && gone < |states| && head.settled == [Resolved]
    ensures StatesValid(states[gone := head], gone + 1, delivered + [gone])
  {
    var log := delivered + [gone];
    forall k ensures k in log <==> k in delivered || k == gone {
      if k == gone { assert log[|delivered|] == k; }
      if k in delivered {
        var i :| 0 <= i < |delivered| && delivered[i] == k;
        assert log[i] == k;
      }
    }
    forall i, j | 0 <= i < j < |log| ensures log[i] < log[j] {
      assert delivered[i] in delivered;
    }
  }

  /** How many of the first n items were settled in that way. */
  function SettledCount(states: seq<ItemState>, way: Settlement, n: nat): nat
    requires n <= |states|
  {
    if n == 0 then 0 else SettledCount(states, way, n - 1) + if states[n - 1].settled == [way] then 1 else 0
  }

  lemma {:induction false} DoneCount(states: seq<ItemState>, n: nat)
    requires n <= |states| && forall k :: 0 <= k < n ==> states[k].Done()
    ensures SettledCount(states, Resolved, n) + SettledCount(states, Rejected, n) == n
  {
    if n == 0 {
    } else {
      DoneCount(states, n - 1);
    }
  }

  lemma {:induction false} WaitingCount(states: seq<ItemState>, gone: nat, n: nat)
    requires gone <= n <= |states| && forall k :: gone <= k < n ==> states[k].Waiting()
    ensures SettledCount(states, Resolved, n) == SettledCount(states, Resolved, gone)
    ensures SettledCount(states, Rejected, n) == SettledCount(states, Rejected, gone)
  {
    if n == gone {
    } else {
      WaitingCount(states, gone, n - 1);
    }
  }

  lemma {:induction false} AtLeastPosition(log: seq<nat>, i: nat)
    requires Ascending(log) && i < |log|
    ensures log[i] >= i
  {
    if i == 0 {
    } else {
      AtLeastPosition(log, i - 1);
    }
  }

  lemma AscendingLength(log: seq<nat>, n: nat)
    requires Ascending(log) && forall i :: 0 <= i < |log| ==> log[i] < n
    ensures |log| <= n
  {
    if log != [] {
      AtLeastPosition(log, |log| - 1);
    }
  }

  /** An ascending list of exactly the positions below n that were delivered is as long as there are such. */
  lemma {:induction false} DeliveredCount(states: seq<ItemState>, n: nat, delivered: seq<nat>)
    requires n <= |states| && Ascending(delivered)
    requires forall i :: 0 <= i < |delivered| ==> delivered[i] < n && states[delivered[i]].settled == [Resolved]
    requires forall k :: 0 <= k < n && states[k].settled == [Resolved] ==> k in delivered
    ensures |delivered| == SettledCount(states, Resolved, n)
  {
    if n == 0 {
      AscendingLength(delivered, n);
    } else {
      if states[n - 1].settled == [Resolved] {
        LastIsGreatest(delivered, n - 1);
        DeliveredCount(states, n - 1, delivered[..|delivered| - 1]);
      } else {
        DeliveredCount(states, n - 1, delivered);
      }
    }
  }

  lemma LastIsGreatest(log: seq<nat>, x: nat)
    requires Ascending(log) && x in log && forall i :: 0 <= i < |log| ==> log[i] <= x
    ensures log != [] && log[|log| - 1] == x
    ensures forall k :: k in log[..|log| - 1] <==> k in log && k < x
  {
    var i :| 0 <= i < |log| && log[i] == x;
  }

  /** Conservation: of the items added, some wait in the queue, and the others were delivered or failed, once each. */
  lemma Conservation(states: seq<ItemState>, gone: nat, delivered: seq<nat>)
    requires StatesValid(states, gone, delivered)
    ensures |states| == (|states| - gone) + |delivered| + SettledCount(states, Rejected, |states|)
  {
    DoneCount(states, gone);
    WaitingCount(states, gone, |states|);
    forall i | 0 <= i < |delivered| ensures delivered[i] < gone && states[delivered[i]].settled == [Resolved] {
      assert delivered[i] in delivered;
    }
    DeliveredCount(states, gone, delivered);
  }

  lemma HeadFailed(states: seq<ItemState>, gone: nat, delivered: seq<nat>, head: ItemState)
    requires StatesValid(states, gone, delivered) && gone < |states| && head.settled == [Rejected] && head.failed
    ensures StatesValid(states[gone := head], gone + 1, delivered)
  {
  }

  lemma HeadTried(states: seq<ItemState>, gone: nat, delivered: seq<nat>, head: ItemState)
    requires StatesValid(states, gone, delivered) && gone < |states| && head.Waiting()
    ensures StatesValid(states[gone := head], gone, delivered)
  {
  }

  lemma ItemAdded(states: seq<ItemState>, gone: nat, delivered: seq<nat>)
    requires StatesValid(states, gone, delivered)
    ensures StatesValid(states + [ItemState(0, false, [])], gone, delivered)
  {
  }

  class MessageQueue {
    const maxSize: nat
    /** Only ever asked for the item with the least number. */
    var heap: set<QueueItem>
    /** Every item that was added, in that order; the first `gone` have been popped. */
    ghost var added: seq<QueueItem>
    ghost var gone: nat
    /** What has become of each added item. */
    ghost var states: seq<ItemState>
    /** Positions in `added` of the delivered items, in order of delivery. */
    ghost var delivered: seq<nat>

    ghost predicate Shape()
      reads this
    {
      Shaped(heap, added, gone)
    }

    ghost predicate Valid()
      reads this, added
    {
      Shape() && AreStates(added, states) && StatesValid(states, gone, delivered) && |heap| <= maxSize
    }

    constructor (maxSize: nat)
      ensures Valid() && added == [] && delivered == [] && this.maxSize == maxSize
    {
      this.maxSize := maxSize;
      heap, added, gone, states, delivered := {}, [], 0, [], [];
    }

    /** The oldest item that has not been popped. */
    method Peek() returns (item: QueueItem)
      requires Shape() && heap != {}
      ensures gone < |added| && item == added[gone] && item in heap
    {
      OldestIsLeast(heap, added, gone);
      item :| item in heap && forall other :: other in heap ==> item.no <= other.no;
    }

    method Pop() returns (item: QueueItem)
      requires Shape() && heap != {}
      modifies this`heap, this`gone
      ensures Shape() && gone == old(gone) + 1 && item == added[old(gone)] && |heap| == |old(heap)| - 1
    {
      item := Peek();
      RestWithoutOldest(heap, added, gone);
      heap := heap - {item};
      gone := gone + 1;
    }

    /** A full queue makes room: its oldest item fails. */
    method DropOldest()
      requires Valid() && heap != {}
      modifies this`heap, this`gone, this`states, heap
      ensures Valid() && gone == old(gone) + 1 && added == old(added) && delivered == old(delivered)
      ensures states == old(states)[old(gone) := states[old(gone)]] && states[old(gone)].settled == [Rejected]
      ensures |heap| == |old(heap)| - 1
    {
      var item := Pop();
      item.ImmediateFail();
      HeadFailed(states, old(gone), delivered, item.State());
      states := states[old(gone) := item.State()];
    }

    /** The oldest item has been sent: pop, then delivered. */
    method DeliverOldest()
      requires Valid() && heap != {}
      modifies this`heap, this`gone, this`states, this`delivered, heap
      ensures Valid() && gone == old(gone) + 1 && added == old(added) && delivered == old(delivered) + [old(gone)]
      ensures states == old(states)[old(gone) := states[old(gone)]] && states[old(gone)].settled == [Resolved]
      ensures |heap| == |old(heap)| - 1 && states[old(gone)].tries == old(states)[old(gone)].tries
    {
      var item := Pop();
      item.Delivered();
      HeadDelivered(states, old(gone), delivered, item.State());
      delivered := delivered + [old(gone)];
      states := states[old(gone) := item.State()];
    }

    /** The oldest item has failed and is popped. */
    method PopFailed(ghost state: ItemState)
      requires Shape() && |heap| <= maxSize && heap != {} && StatesValid(states, gone, delivered) && gone < |states|
      requires AreStates(added, states[gone := state]) && state.settled == [Rejected] && state.failed
      modifies this`heap, this`gone, this`states
      ensures Valid() && gone == old(gone) + 1 && states == old(states)[old(gone) := state]
    {
      HeadFailed(states, gone, delivered, state);
      states := states[gone := state];
      var _ := Pop();
    }

    /** The oldest item cannot be sent at all: immediateFail, then pop. */
    method FailOldest()
      requires Valid() && heap != {}
      modifies this`heap, this`gone, this`states, heap
      ensures Valid() && gone == old(gone) + 1 && added == old(added) && delivered == old(delivered)
      ensures states == old(states)[old(gone) := states[old(gone)]] && states[old(gone)].settled == [Rejected]
      ensures states[old(gone)].tries == old(states)[old(gone)].tries
    {
      var item := Peek();
      item.ImmediateFail();
      PopFailed(item.State());
    }

    /** Sending the oldest item has failed: it is tried again, or has failed MAX_TRIES times and goes. */
    method RetryOldest()
      requires Valid() && heap != {}
      modifies this`heap, this`gone, this`states, heap
      ensures Valid() && added == old(added) && delivered == old(delivered)
      ensures states == old(states)[old(gone) := states[old(gone)]]
      ensures states[old(gone)].tries == old(states)[old(gone)].tries + 1
      ensures if states[old(gone)].tries == MAX_TRIES
              then gone == old(gone) + 1 && states[old(gone)].settled == [Rejected]
              else gone == old(gone)
    {
      var item := Peek();
      item.IncrementTries();
      if item.failed {
        PopFailed(item.State());
      } else {
        HeadTried(states, gone, delivered, item.State());
        states := states[gone := item.State()];
      }
    }

    /** heap.push */
    method PushHeap(item: QueueItem)
      requires Shape() && forall k :: 0 <= k < |added| ==> added[k].no < item.no
      modifies this`heap, this`added
      ensures Shape() && added == old(added) + [item] && |heap| == |old(heap)| + 1
    {
      ShapedWithNewest(heap, added, gone, item);
      heap, added := heap + {item}, added + [item];
    }

    method Push(item: QueueItem)
      requires Valid() && |heap| < maxSize && forall k :: 0 <= k < |added| ==> added[k].no < item.no
      requires item.State() == ItemState(0, false, [])
      modifies this`heap, this`added, this`states
      ensures Valid() && gone == old(gone) && delivered == old(delivered) && |heap| == |old(heap)| + 1
      ensures added == old(added) + [item] && states == old(states) + [item.State()]
    {
      StatesWithNewest(added, states, item);
      ItemAdded(states, gone, delivered);
      PushHeap(item);
      states := states + [item.State()];
    }

    /**
     * The new item waits behind all others. If there was no room, the oldest one has been dropped; a
     * queue without any room throws.
     */
    method Add(message: string, no: int) returns (ok: bool)
      requires Valid() && forall k :: 0 <= k < |added| ==> added[k].no < no
      modifies this`heap, this`gone, this`added, this`states, heap
      ensures Valid() && ok == (maxSize > 0) && delivered == old(delivered)
      ensures !ok ==> added == old(added) && gone == old(gone) && states == old(states)
      ensures ok ==> |added| == |old(added)| + 1 && old(added) <= added && added[|added| - 1].message == message
      ensures ok ==> gone == old(gone) + if |old(heap)| == maxSize then 1 else 0
      ensures ok && |old(heap)| == maxSize ==> states[old(gone)].settled == [Rejected]
      ensures ok ==> |states| == |old(states)| + 1 && states[|states| - 1] == ItemState(0, false, [])
      ensures ok ==> forall k :: 0 <= k < |old(states)| && (k != old(gone) || |old(heap)| < maxSize) ==>
        states[k] == old(states)[k]
    {
      if |heap| == maxSize {
        if heap == {} {
          return false;
        }
        DropOldest();
      }
      var item := new QueueItem(message, no);
      Push(item);
      ok := true;
    }
  }

  lemma OldestIsLeast(heap: set<QueueItem>, added: seq<QueueItem>, gone: nat)
    requires InOrderOfAdding(added) && HoldsRest(heap, added, gone) && heap != {}
    ensures gone < |added| && added[gone] in heap
    ensures forall item :: item in heap ==> added[gone].no <= item.no
    ensures forall item :: item in heap && item != added[gone] ==> added[gone].no < item.no
  {
    var item :| item in heap;
  }

  lemma RestWithoutOldest(heap: set<QueueItem>, added: seq<QueueItem>, gone: nat)
    requires InOrderOfAdding(added) && HoldsRest(heap, added, gone) && gone < |added|
    ensures HoldsRest(heap - {added[gone]}, added, gone + 1)
  {
  }

  lemma RestShrinks(heap: set<QueueItem>, heap': set<QueueItem>, added: seq<QueueItem>, gone: nat, gone': nat)
    requires HoldsRest(heap, added, gone) && HoldsRest(heap', added, gone') && gone <= gone'
    ensures heap' <= heap
  {
  }

  lemma ShapedWithNewest(heap: set<QueueItem>, added: seq<QueueItem>, gone: nat, item: QueueItem)
    requires Shaped(heap, added, gone) && forall k :: 0 <= k < |added| ==> added[k].no < item.no
    ensures Shaped(heap + {item}, added + [item], gone)
    ensures |heap + {item}| == |heap| + 1
  {
    var all := added + [item];
    assert forall k :: gone <= k < |added| ==> all[k] == added[k];
    assert all[|added|] == item && item !in heap;
  }

  lemma StatesWithNewest(added: seq<QueueItem>, states: seq<ItemState>, item: QueueItem)
    requires AreStates(added, states)
    ensures AreStates(added + [item], states + [item.State()])
  {
  }
}
