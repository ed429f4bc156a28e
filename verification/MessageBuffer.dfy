/** Messages kept per stream until they can be sent or time out: src/helpers/MessageBuffer.ts. */
module MessageBuffers {
  import opened Identifiers
  import opened Messages
  import opened Options

  /** One put; its position in the order of all puts names its timer. */
  datatype Entry = Entry(id: StreamKey, message: Copy)

  /** The puts for id among the first n that are not gone, in put order. */
  ghost function LiveAmong(puts: seq<Entry>, gone: set<nat>, id: StreamKey, n: nat): (live: seq<nat>)
    requires n <= |puts|
    ensures forall k :: 0 <= k < |live| ==> live[k] < n && live[k] !in gone && puts[live[k]].id == id
  {
    if n == 0 then []
    else LiveAmong(puts, gone, id, n - 1) + if puts[n - 1].id == id && n - 1 !in gone then [n - 1] else []
  }

  ghost function Live(puts: seq<Entry>, gone: set<nat>, id: StreamKey): (live: seq<nat>)
    ensures forall k :: 0 <= k < |live| ==> live[k] < |puts|
  {
    LiveAmong(puts, gone, id, |puts|)
  }

  lemma {:induction false} LiveIsExact(puts: seq<Entry>, gone: set<nat>, id: StreamKey, n: nat)
    requires n <= |puts|
    ensures forall r: nat :: r in LiveAmong(puts, gone, id, n) <==> r < n && r !in gone && puts[r].id == id
  {
    if n == 0 {
    } else {
      LiveIsExact(puts, gone, id, n - 1);
    }
  }

  /** Put order: positions ascend. */
  lemma {:induction false} LiveInPutOrder(puts: seq<Entry>, gone: set<nat>, id: StreamKey, n: nat)
    requires n <= |puts|
    ensures forall j, k :: 0 <= j < k < |LiveAmong(puts, gone, id, n)| ==>
      LiveAmong(puts, gone, id, n)[j] < LiveAmong(puts, gone, id, n)[k]
  {
    if n == 0 {
    } else {
      LiveInPutOrder(puts, gone, id, n - 1);
    }
  }

  lemma {:induction false} LiveAfterPut(puts: seq<Entry>, gone: set<nat>, e: Entry, id: StreamKey, n: nat)
    requires n <= |puts|
    ensures LiveAmong(puts + [e], gone, id, n) == LiveAmong(puts, gone, id, n)
  {
    if n == 0 {
    } else {
      LiveAfterPut(puts, gone, e, id, n - 1);
    }
  }

  /** Puts from n on, and puts for other ids, do not matter. */
  lemma {:induction false} LiveUnaffected(puts: seq<Entry>, gone: set<nat>, more: set<nat>, id: StreamKey, n: nat)
    requires n <= |puts| && forall r :: r in more && r < n ==> puts[r].id != id
    ensures LiveAmong(puts, gone + more, id, n) == LiveAmong(puts, gone, id, n)
  {
    if n == 0 {
    } else {
      LiveUnaffected(puts, gone, more, id, n - 1);
    }
  }

  lemma TailOfAppended(s: seq<nat>, x: nat)
    requires s != []
    ensures (s + [x])[1..] == s[1..] + [x]
  {
  }

  lemma {:induction false} OwnAfterOldest(puts: seq<Entry>, gone: set<nat>, id: StreamKey, n: nat, oldest: nat)
    requires n <= |puts| && LiveAmong(puts, gone, id, n) != [] && LiveAmong(puts, gone, id, n)[0] == oldest
    ensures LiveAmong(puts, gone + {oldest}, id, n) == LiveAmong(puts, gone, id, n)[1..]
  {
    var before := LiveAmong(puts, gone, id, n - 1);
    if before == [] {
      LiveUnaffected(puts, gone, {oldest}, id, n - 1);
    } else {
      OwnAfterOldest(puts, gone, id, n - 1, oldest);
      TailOfAppended(before, n - 1);
    }
  }

  /** Taking the oldest live put out leaves the others; puts for other ids stay as they are. */
  lemma LiveAfterOldest(puts: seq<Entry>, gone: set<nat>, id: StreamKey, other: StreamKey, n: nat)
    requires n <= |puts| && LiveAmong(puts, gone, id, n) != []
    ensures var oldest := LiveAmong(puts, gone, id, n)[0];
      LiveAmong(puts, gone + {oldest}, other, n) ==
      if other == id then LiveAmong(puts, gone, id, n)[1..] else LiveAmong(puts, gone, other, n)
  {
    var oldest := LiveAmong(puts, gone, id, n)[0];
    if other == id {
      OwnAfterOldest(puts, gone, id, n, oldest);
    } else {
      LiveUnaffected(puts, gone, {oldest}, other, n);
    }
  }

  ghost function Oldest(puts: seq<Entry>, gone: set<nat>, id: StreamKey): set<nat> {
    if Live(puts, gone, id) == [] then {} else {Live(puts, gone, id)[0]}
  }

  /** A put makes its message the youngest live one; the oldest goes if there were as many as may be, no other does. */
  lemma LivePut(puts: seq<Entry>, gone: set<nat>, id: StreamKey, message: Copy, maxSize: nat)
    requires forall r :: r in gone ==> r < |puts|
    ensures var live := Live(puts, gone, id);
      var gone' := if |live| >= maxSize then gone + Oldest(puts, gone, id) else gone;
      Live(puts + [Entry(id, message)], gone', id) ==
      (if |live| >= maxSize && live != [] then live[1..] else live) + [|puts|]
  {
    var live, e := Live(puts, gone, id), Entry(id, message);
    var gone' := if |live| >= maxSize then gone + Oldest(puts, gone, id) else gone;
    LiveAfterPut(puts, gone', e, id, |puts|);
    if |live| >= maxSize {
      if live == [] {
        assert gone' == gone;
      } else {
        LiveAfterOldest(puts, gone, id, id, |puts|);
      }
    }
  }

  predicate Full(buffer: map<StreamKey, seq<Copy>>, maxSize: nat, id: StreamKey) {
    id in buffer && |buffer[id]| >= maxSize
  }

  /** The buffer after one put that does not throw. */
  function PutIn(buffer: map<StreamKey, seq<Copy>>, maxSize: nat, id: StreamKey, message: Copy)
    : map<StreamKey, seq<Copy>>
  {
    var before := if id in buffer then buffer[id] else [];
    buffer[id := (if |before| >= maxSize && before != [] then before[1..] else before) + [message]]
  }

  /** pop deletes an array that has become empty. */
  function AfterPop(buffer: map<StreamKey, seq<Copy>>, id: StreamKey): map<StreamKey, seq<Copy>> {
    if id !in buffer then buffer
    else if |buffer[id]| <= 1 then buffer - {id}
    else buffer[id := buffer[id][1..]]
  }

  /** put pushes to an array that pop has just deleted. */
  predicate PutThrows(buffer: map<StreamKey, seq<Copy>>, maxSize: nat, id: StreamKey) {
    maxSize == 0 || (maxSize == 1 && id in buffer)
  }

  /** The messages of the puts that live names. */
  ghost function Row(puts: seq<Entry>, live: seq<nat>): seq<Copy>
    requires forall k :: 0 <= k < |live| ==> live[k] < |puts|
  {
    seq(|live|, k requires 0 <= k < |live| => puts[live[k]].message)
  }

  /** One id's arrays hold exactly the messages and the timers of its live puts, in put order. */
  ghost predicate RowMatches(puts: seq<Entry>, gone: set<nat>, buffer: map<StreamKey, seq<Copy>>,
                             timeoutRefs: map<StreamKey, seq<nat>>, id: StreamKey) {
    var live := Live(puts, gone, id);
    if id in buffer then id in timeoutRefs && timeoutRefs[id] == live && buffer[id] == Row(puts, live) else live == []
  }

  ghost predicate ArraysMatch(puts: seq<Entry>, gone: set<nat>, buffer: map<StreamKey, seq<Copy>>,
                              timeoutRefs: map<StreamKey, seq<nat>>) {
    forall id :: RowMatches(puts, gone, buffer, timeoutRefs, id)
  }

  /** Exactly the timers of live puts are armed, each to pop the id it was put under. */
  ghost predicate TimersMatch(puts: seq<Entry>, gone: set<nat>, armed: map<nat, StreamKey>, nextRef: nat) {
    && nextRef == |puts| && (forall r :: r in gone ==> r < nextRef)
    && (forall r: nat :: r in armed <==> r < |puts| && r !in gone)
    && (forall r: nat :: r in armed ==> armed[r] == puts[r].id)
  }

  lemma TimerTakenOut(puts: seq<Entry>, gone: set<nat>, armed: map<nat, StreamKey>, nextRef: nat, r: nat)
    requires TimersMatch(puts, gone, armed, nextRef) && r < nextRef
    ensures TimersMatch(puts, gone + {r}, armed - {r}, nextRef)
  {
  }

  lemma RowTail(puts: seq<Entry>, live: seq<nat>)
    requires live != [] && forall k :: 0 <= k < |live| ==> live[k] < |puts|
    ensures Row(puts, live)[1..] == Row(puts, live[1..])
  {
  }

  lemma OldestTakenOut(puts: seq<Entry>, gone: set<nat>, buffer: map<StreamKey, seq<Copy>>,
                       refs: map<StreamKey, seq<nat>>, id: StreamKey)
    requires ArraysMatch(puts, gone, buffer, refs) && id in buffer && buffer[id] != []
    ensures var live := Live(puts, gone, id);
      && id in refs && refs[id] == live && buffer[id] == Row(puts, live)
      && ArraysMatch(puts, gone + {live[0]}, buffer[id := buffer[id][1..]], refs[id := refs[id][1..]])
  {
    var live := Live(puts, gone, id);
    assert RowMatches(puts, gone, buffer, refs, id);
    RowTail(puts, live);
    var gone', buffer', refs' := gone + {live[0]}, buffer[id := buffer[id][1..]], refs[id := refs[id][1..]];
    forall other ensures RowMatches(puts, gone', buffer', refs', other) {
      assert RowMatches(puts, gone, buffer, refs, other);
      LiveAfterOldest(puts, gone, id, other, |puts|);
    }
  }

  /** A new put becomes the youngest message of its id. */
  lemma PutAppended(puts: seq<Entry>, gone: set<nat>, buffer: map<StreamKey, seq<Copy>>,
                    refs: map<StreamKey, seq<nat>>, e: Entry)
    requires ArraysMatch(puts, gone, buffer, refs) && e.id in buffer && |puts| !in gone
    ensures e.id in refs
    ensures ArraysMatch(puts + [e], gone, buffer[e.id := buffer[e.id] + [e.message]],
                        refs[e.id := refs[e.id] + [|puts|]])
  {
    assert RowMatches(puts, gone, buffer, refs, e.id);
    var puts', buffer' := puts + [e], buffer[e.id := buffer[e.id] + [e.message]];
    var refs' := refs[e.id := refs[e.id] + [|puts|]];
    forall other ensures RowMatches(puts', gone, buffer', refs', other) {
      assert RowMatches(puts, gone, buffer, refs, other);
      LiveAfterPut(puts, gone, e, other, |puts|);
      var live := Live(puts, gone, other);
      assert Row(puts', live) == Row(puts, live);
      assert Row(puts', live + [|puts|]) == Row(puts, live) + [e.message];
    }
  }

  lemma NewRow(puts: seq<Entry>, gone: set<nat>, buffer: map<StreamKey, seq<Copy>>,
               refs: map<StreamKey, seq<nat>>, id: StreamKey)
    requires ArraysMatch(puts, gone, buffer, refs) && id !in buffer
    ensures ArraysMatch(puts, gone, buffer[id := []], refs[id := []])
  {
    var buffer', refs' := buffer[id := []], refs[id := []];
    forall other ensures RowMatches(puts, gone, buffer', refs', other) {
      assert RowMatches(puts, gone, buffer, refs, other);
    }
  }

  lemma AllTakenOut(puts: seq<Entry>, gone: set<nat>, buffer: map<StreamKey, seq<Copy>>,
                    refs: map<StreamKey, seq<nat>>, id: StreamKey)
    requires ArraysMatch(puts, gone, buffer, refs) && id in buffer
    ensures id in refs && refs[id] == Live(puts, gone, id) && buffer[id] == Row(puts, refs[id])
    ensures ArraysMatch(puts, gone + Refs(refs[id]), buffer - {id}, refs - {id})
  {
    assert RowMatches(puts, gone, buffer, refs, id);
    var more := Refs(refs[id]);
    var gone', buffer', refs' := gone + more, buffer - {id}, refs - {id};
    forall other ensures RowMatches(puts, gone', buffer', refs', other) {
      assert RowMatches(puts, gone, buffer, refs, other);
      if other == id {
        LiveIsExact(puts, gone, id, |puts|);
        NothingLives(puts, gone', id, |puts|);
      } else {
        LiveUnaffected(puts, gone, more, other, |puts|);
      }
    }
  }

  function Refs(s: seq<nat>): set<nat> {
    set r | r in s
  }

  lemma {:induction false} NothingLives(puts: seq<Entry>, gone: set<nat>, id: StreamKey, n: nat)
    requires n <= |puts| && forall r: nat :: r < n && puts[r].id == id ==> r in gone
    ensures LiveAmong(puts, gone, id, n) == []
  {
    if n == 0 {
    } else {
      NothingLives(puts, gone, id, n - 1);
    }
  }

  lemma EmptyRowDeleted(puts: seq<Entry>, gone: set<nat>, buffer: map<StreamKey, seq<Copy>>,
                        refs: map<StreamKey, seq<nat>>, id: StreamKey)
    requires ArraysMatch(puts, gone, buffer, refs) && id in buffer && buffer[id] == []
    ensures ArraysMatch(puts, gone, buffer - {id}, refs)
  {
    forall other ensures RowMatches(puts, gone, buffer - {id}, refs, other) {
      assert RowMatches(puts, gone, buffer, refs, other);
    }
  }

  class MessageBuffer {
    const maxSize: nat
    var buffer: map<StreamKey, seq<Copy>>
    var timeoutRefs: map<StreamKey, seq<nat>>
    /** The timers that have neither fired nor been cleared, with the id that their callback pops. */
    var armed: map<nat, StreamKey>
    var nextRef: nat
    ghost var puts: seq<Entry>
    /** The puts whose message has been popped, pushed out or timed out. */
    ghost var gone: set<nat>

    ghost predicate Consistent()
      reads this
    {
      TimersMatch(puts, gone, armed, nextRef) && ArraysMatch(puts, gone, buffer, timeoutRefs)
    }

    ghost predicate Valid()
      reads this
    {
      Consistent() && forall id :: id in buffer ==> 0 < |buffer[id]| <= maxSize
    }

    constructor (maxSize: nat)
      ensures Valid() && buffer == map[] && puts == [] && this.maxSize == maxSize
    {
      this.maxSize := maxSize;
      buffer, timeoutRefs, armed, nextRef, puts, gone := map[], map[], map[], 0, [], {};
    }

    /** The two shift calls of pop, and clearTimeout. */
    method Shift(id: StreamKey) returns (message: Copy)
      requires Consistent() && id in buffer && buffer[id] != []
      modifies this
      ensures Consistent() && puts == old(puts) && buffer == old(buffer)[id := old(buffer)[id][1..]]
      ensures var live := Live(puts, old(gone), id);
        |live| == |old(buffer)[id]| && gone == old(gone) + {live[0]} && message == puts[live[0]].message
    {
      OldestTakenOut(puts, gone, buffer, timeoutRefs, id);
      var ref := timeoutRefs[id][0];
      message := buffer[id][0];
      TimerTakenOut(puts, gone, armed, nextRef, ref);
      buffer := buffer[id := buffer[id][1..]];
      timeoutRefs := timeoutRefs[id := timeoutRefs[id][1..]];
      armed := armed - {ref};
      gone := gone + {ref};
    }

    /** Takes the oldest live message of the id out, and only that. */
    method Pop(id: StreamKey) returns (message: Option<Copy>)
      requires Consistent()
      modifies this
      ensures Consistent() && puts == old(puts)
      ensures buffer == AfterPop(old(buffer), id)
      ensures id !in old(buffer) || old(buffer)[id] == [] ==> message == None && gone == old(gone)
      ensures id in old(buffer) && old(buffer)[id] != [] ==>
        var live := Live(puts, old(gone), id);
        |live| == |old(buffer)[id]| && gone == old(gone) + {live[0]} && message == Some(puts[live[0]].message)
    {
      message := None;
      if id in buffer {
        if buffer[id] != [] {
          var first := Shift(id);
          message := Some(first);
        }
        if buffer[id] == [] {
          EmptyRowDeleted(puts, gone, buffer, timeoutRefs, id);
          buffer := buffer - {id};
        }
      }
    }

    /**
     * Appends the message and starts its timer; a full buffer loses its oldest message first. With
     * room for less than two messages the push fails, and ok says so.
     */
    method Put(id: StreamKey, message: Copy) returns (ok: bool)
      requires Valid()
      modifies this
      ensures Valid() && ok == !PutThrows(old(buffer), maxSize, id)
      ensures ok ==> buffer == PutIn(old(buffer), maxSize, id, message) && puts == old(puts) + [Entry(id, message)]
      ensures !ok ==> buffer == old(buffer) - {id} && puts == old(puts)
      ensures gone == if Full(old(buffer), maxSize, id) then old(gone) + Oldest(old(puts), old(gone), id) else old(gone)
    {
      if id !in buffer {
        NewRow(puts, gone, buffer, timeoutRefs, id);
        buffer := buffer[id := []];
        timeoutRefs := timeoutRefs[id := []];
      }
      if |buffer[id]| >= maxSize {
        var _ := Pop(id);
      }
      if id !in buffer {
        return false;
      }
      Push(id, message);
      return true;
    }

    method Push(id: StreamKey, message: Copy)
      requires Consistent() && id in buffer
      modifies this
      ensures Consistent() && buffer == old(buffer)[id := old(buffer)[id] + [message]]
      ensures puts == old(puts) + [Entry(id, message)] && gone == old(gone)
    {
      PutAppended(puts, gone, buffer, timeoutRefs, Entry(id, message));
      buffer := buffer[id := buffer[id] + [message]];
      timeoutRefs := timeoutRefs[id := timeoutRefs[id] + [nextRef]];
      armed := armed[nextRef := id];
      nextRef := nextRef + 1;
      puts := puts + [Entry(id, message)];
    }

    method PopAll(id: StreamKey) returns (messages: seq<Copy>)
      requires Valid()
      modifies this
      ensures Valid() && puts == old(puts) && buffer == old(buffer) - {id}
      ensures messages == if id in old(buffer) then old(buffer)[id] else []
      ensures var live := Live(puts, old(gone), id); messages == Row(puts, live) && gone == old(gone) + Refs(live)
    {
      messages := [];
      if id in buffer {
        AllTakenOut(puts, gone, buffer, timeoutRefs, id);
        messages := buffer[id];
        armed := armed - Refs(timeoutRefs[id]);
        gone := gone + Refs(timeoutRefs[id]);
        timeoutRefs := timeoutRefs - {id};
        buffer := buffer - {id};
      } else {
        assert RowMatches(puts, gone, buffer, timeoutRefs, id);
      }
    }

    /**
     * The callback of a timer. All timers run equally long, so the one that fires is the oldest
     * armed one; it takes out exactly the message that it was started for.
     */
    method TimerFires(ref: nat)
      requires Valid() && ref in armed && forall r :: r in armed ==> ref <= r
      modifies this
      ensures Valid() && puts == old(puts) && ref < |puts| && gone == old(gone) + {ref}
      ensures buffer == AfterPop(old(buffer), puts[ref].id)
    {
      ghost var id := armed[ref];
      OldestArmed(puts, gone, id, ref);
      assert RowMatches(puts, gone, buffer, timeoutRefs, id);
      var _ := Pop(armed[ref]);
    }
  }

  lemma OldestArmed(puts: seq<Entry>, gone: set<nat>, id: StreamKey, ref: nat)
    requires ref < |puts| && ref !in gone && puts[ref].id == id
    requires forall r: nat :: r < |puts| && r !in gone ==> ref <= r
    ensures Live(puts, gone, id) != [] && Live(puts, gone, id)[0] == ref
  {
    var live := Live(puts, gone, id);
    LiveIsExact(puts, gone, id, |puts|);
    LiveInPutOrder(puts, gone, id, |puts|);
    var k :| 0 <= k < |live| && live[k] == ref;
  }
}
