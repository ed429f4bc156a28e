/**
 * Well-formed message chains: strictly increasing numbers, each message naming its predecessor and
 * the first naming none. The messages are delivered in any order, any number of times.
 */
module Chains {
  import opened Collections
  import opened Numbers
  import opened Options
  import opened GapLists
  import opened Detectors
  import opened DetectorRuns

  ghost predicate Chain(c: seq<NumberPair>) {
    && (forall i :: 0 <= i < |c| ==> c[i].NumberPair?)
    && (forall i, j :: 0 <= i < j < |c| ==> Less(c[i], c[j]))
  }

  function Message(c: seq<NumberPair>, k: nat): Arrival
    requires k < |c|
  {
    Arrival(if k == 0 then None else Some(c[k - 1]), c[k])
  }

  ghost predicate Indices(c: seq<NumberPair>, order: seq<nat>) {
    forall i :: 0 <= i < |order| ==> order[i] < |c|
  }

  /** The arrivals when the messages of the chain are delivered in the given order. */
  function Deliveries(c: seq<NumberPair>, order: seq<nat>): (run: seq<Arrival>)
    requires Indices(c, order)
    ensures |run| == |order| && forall i :: 0 <= i < |run| ==> run[i] == Message(c, order[i])
  {
    seq(|order|, i requires 0 <= i < |order| => Message(c, order[i]))
  }

  lemma DeliveriesPrefix(c: seq<NumberPair>, order: seq<nat>, i: nat)
    requires Indices(c, order) && i <= |order|
    ensures Indices(c, order[..i]) && Deliveries(c, order)[..i] == Deliveries(c, order[..i])
  {
  }

  lemma DeliveriesFinite(c: seq<NumberPair>, order: seq<nat>)
    requires Chain(c) && Indices(c, order)
    ensures Finite(Deliveries(c, order))
  {
  }

  // ----- no call throws -----

  predicate OnChain(c: seq<NumberPair>, x: NumberPair) {
    x in c
  }

  /** Every boundary of a gap is a number of the chain (or infinity). */
  ghost predicate Bounded(c: seq<NumberPair>, gaps: seq<Gap>) {
    forall i :: 0 <= i < |gaps| ==>
      OnChain(c, gaps[i].lower) && (gaps[i].upper == Infinite || OnChain(c, gaps[i].upper))
  }

  /** No number of the chain lies strictly between neighbours. */
  lemma NothingBetween(c: seq<NumberPair>, k: nat, x: NumberPair)
    requires Chain(c) && 0 < k < |c| && OnChain(c, x)
    ensures !Less(x, c[k]) || !Less(c[k - 1], x)
  {
    var i :| 0 <= i < |c| && c[i] == x;
  }

  lemma {:induction false} ScanNeverMismatches(c: seq<NumberPair>, gaps: seq<Gap>, i: nat, k: nat)
    requires Chain(c) && 0 < k < |c| && Bounded(c, gaps) && i <= |gaps|
    ensures Scan(gaps, i, c[k - 1], c[k]) != Mismatch
  {
    if i == 0 {
    } else {
      var g := gaps[i - 1];
      NothingBetween(c, k, g.lower);
      if g.upper != Infinite { NothingBetween(c, k, g.upper); }
      ScanNeverMismatches(c, gaps, i - 1, k);
    }
  }

  lemma CutBounded(c: seq<NumberPair>, gaps: seq<Gap>, i: nat, k: nat)
    requires Chain(c) && 0 < k < |c| && Bounded(c, gaps) && i < |gaps|
    ensures Bounded(c, Cut(gaps, i, c[k - 1], c[k]))
  {
    var r := Remainder(gaps[i], c[k - 1], c[k]);
    assert Bounded(c, gaps[..i]) && Bounded(c, gaps[i + 1..]) && Bounded(c, r);
  }

  lemma StepOnChain(c: seq<NumberPair>, max: nat, gaps: seq<Gap>, k: nat)
    requires Chain(c) && k < |c| && Bounded(c, gaps) && Reachable(gaps, max)
    ensures var m := Step(max, gaps, Message(c, k));
      m.verdict.Returns? && Bounded(c, m.gaps)
  {
    if gaps != [] && k > 0 {
      ScanNeverMismatches(c, gaps, |gaps|, k);
      match Scan(gaps, |gaps|, c[k - 1], c[k])
      case Inside(i) => CutBounded(c, gaps, i, k);
      case _ =>
    }
  }

  lemma {:induction false} DeliveryBounded(c: seq<NumberPair>, max: nat, order: seq<nat>)
    requires Chain(c) && Indices(c, order) && max >= 1
    ensures var gaps := After(max, Deliveries(c, order)); Bounded(c, gaps) && Reachable(gaps, max)
  {
    DeliveriesFinite(c, order);
    RunsKeepReachable(max, Deliveries(c, order));
    if order == [] {
    } else {
      var q := order[..|order| - 1];
      DeliveryBounded(c, max, q);
      DeliveriesPrefix(c, order, |order| - 1);
      StepOnChain(c, max, After(max, Deliveries(c, q)), order[|order| - 1]);
    }
  }

  /** Delivering a chain never throws, whatever the order, the repeats and the capacity. */
  lemma NeverThrows(c: seq<NumberPair>, max: nat, order: seq<nat>, i: nat)
    requires Chain(c) && Indices(c, order) && max >= 1 && i < |order|
    ensures VerdictAt(max, Deliveries(c, order), i).Returns?
  {
    DeliveriesPrefix(c, order, i);
    DeliveryBounded(c, max, order[..i]);
    StepOnChain(c, max, After(max, Deliveries(c, order[..i])), order[i]);
  }

  // ----- completeness -----

  /** The call loses nothing to the capacity limit. */
  predicate KeepsAllGaps(max: nat, gaps: seq<Gap>, a: Arrival) {
    gaps == [] || a.previous.None? || !Less(a.previous.value, a.number) ||
    match Scan(gaps, |gaps|, a.previous.value, a.number)
    case Inside(i) => |Cut(gaps, i, a.previous.value, a.number)| <= max
    case _ => true
  }

  ghost predicate NoDrops(max: nat, run: seq<Arrival>) {
    forall i :: 0 <= i < |run| ==> KeepsAllGaps(max, After(max, run[..i]), run[i])
  }

  /** What is unseen after the deliveries: everything past the first but the intervals delivered. */
  ghost predicate StillDue(c: seq<NumberPair>, order: seq<nat>, x: NumberPair)
    requires Indices(c, order) && order != []
  {
    && Less(c[order[0]], x)
    && forall k :: 0 < k < |c| && k in order && k > order[0] ==> !Between(c[k - 1], x, c[k])
  }

  /** An interval of the chain after the first delivery is either delivered or unseen throughout. */
  lemma IntervalStillDue(c: seq<NumberPair>, order: seq<nat>, k: nat)
    requires Chain(c) && Indices(c, order) && order != [] && 0 < k < |c|
    ensures k > order[0] && k !in order ==> forall x :: Between(c[k - 1], x, c[k]) ==> StillDue(c, order, x)
    ensures k <= order[0] || k in order ==> forall x :: Between(c[k - 1], x, c[k]) ==> !StillDue(c, order, x)
  {
    var f := order[0];
    forall x | Between(c[k - 1], x, c[k]) ensures StillDue(c, order, x) <==> k > f && k !in order {
      if k > f {
        assert k - 1 == f || Less(c[f], c[k - 1]);
        forall j | 0 < j < |c| && j in order && j > f && j != k ensures !Between(c[j - 1], x, c[j]) {
          if j < k { assert j == k - 1 || Less(c[j], c[k - 1]); }
          else { assert k == j - 1 || Less(c[k], c[j - 1]); }
        }
      } else {
        assert k == f || Less(c[k], c[f]);
      }
    }
  }

  /** The numbers that a call gives up to the capacity limit. */
  predicate GivenUpAt(max: nat, gaps: seq<Gap>, a: Arrival, x: NumberPair) {
    gaps != [] && a.previous.Some? && Less(a.previous.value, a.number) &&
    var hit := Scan(gaps, |gaps|, a.previous.value, a.number);
    hit.Inside? && Dropped(Cut(gaps, hit.i, a.previous.value, a.number), max, x)
  }

  ghost predicate GivenUp(max: nat, run: seq<Arrival>, x: NumberPair) {
    exists i :: 0 <= i < |run| && GivenUpAt(max, After(max, run[..i]), run[i], x)
  }

  /** The unseen numbers are what remains of the chain, but for `lost`. */
  ghost predicate UnseenBut(c: seq<NumberPair>, order: seq<nat>, gaps: seq<Gap>, lost: iset<NumberPair>)
    requires Indices(c, order) && order != []
  {
    forall x :: Unseen(gaps, x) <==> StillDue(c, order, x) && x !in lost
  }

  /** The first message of the chain names no predecessor; it is too late once any was delivered. */
  lemma FirstOfChainIsLate(c: seq<NumberPair>, max: nat, gaps: seq<Gap>, order: seq<nat>, lost: iset<NumberPair>)
    requires Chain(c) && Indices(c, order) && order != [] && |c| > 0
    requires Reachable(gaps, max) && gaps != [] && UnseenBut(c, order, gaps, lost)
    ensures Step(max, gaps, Message(c, 0)) == Marked(gaps, Returns(false))
  {
    NullPreviousRefinement(gaps, max, c[0]);
    assert order[0] == 0 || Less(c[0], c[order[0]]);
    assert !Less(c[0], c[0]) && !Unseen(gaps, c[0]);
  }

  lemma SameStillDue(c: seq<NumberPair>, order: seq<nat>, k: nat)
    requires Chain(c) && Indices(c, order) && order != [] && k < |c|
    requires k == 0 || k <= order[0] || k in order
    ensures forall x :: StillDue(c, order + [k], x) <==> StillDue(c, order, x)
  {
    var order' := order + [k];
    assert forall j :: j in order' <==> j in order || j == k;
  }

  lemma StillDueExtend(c: seq<NumberPair>, order: seq<nat>, k: nat, x: NumberPair)
    requires Chain(c) && Indices(c, order) && order != [] && order[0] < k < |c|
    ensures StillDue(c, order + [k], x) <==> StillDue(c, order, x) && !Between(c[k - 1], x, c[k])
  {
    var order' := order + [k];
    assert forall j :: j in order' <==> j in order || j == k;
  }

  /** An accepted delivery takes its interval out, and what it gives up. */
  lemma DeliverCuts(c: seq<NumberPair>, max: nat, gaps: seq<Gap>, order: seq<nat>, k: nat, lost: iset<NumberPair>)
    requires Chain(c) && Indices(c, order) && order != [] && order[0] < k < |c|
    requires Reachable(gaps, max) && gaps != [] && UnseenBut(c, order, gaps, lost)
    requires Step(max, gaps, Message(c, k)).verdict == Returns(true)
    ensures UnseenBut(c, order + [k], Step(max, gaps, Message(c, k)).gaps,
                      lost + iset x | GivenUpAt(max, gaps, Message(c, k), x))
  {
    var p, n := c[k - 1], c[k];
    ScanMeaning(gaps, |gaps|, p, n);
    var i := Scan(gaps, |gaps|, p, n).i;
    CutIsExact(gaps, max, i, p, n);
    forall x ensures StillDue(c, order + [k], x) <==> StillDue(c, order, x) && !Between(p, x, n) {
      StillDueExtend(c, order, k, x);
    }
  }

  /** A refused delivery changes nothing, and nothing of its interval was left. */
  lemma DeliverLeaves(c: seq<NumberPair>, max: nat, gaps: seq<Gap>, order: seq<nat>, k: nat, lost: iset<NumberPair>)
    requires Chain(c) && Indices(c, order) && order != [] && 0 < k < |c|
    requires Reachable(gaps, max) && gaps != [] && UnseenBut(c, order, gaps, lost)
    requires Step(max, gaps, Message(c, k)).verdict == Returns(false)
    ensures Step(max, gaps, Message(c, k)).gaps == gaps && UnseenBut(c, order + [k], gaps, lost)
    ensures forall x :: !GivenUpAt(max, gaps, Message(c, k), x)
  {
    ExactRefinement(gaps, max, c[k - 1], c[k]);
    ScanMeaning(gaps, |gaps|, c[k - 1], c[k]);
    if order[0] < k {
      forall x ensures Unseen(gaps, x) <==> StillDue(c, order + [k], x) && x !in lost {
        StillDueExtend(c, order, k, x);
      }
    } else {
      SameStillDue(c, order, k);
    }
  }

  /** A message beyond the first delivery is accepted exactly if its number is unseen. */
  lemma AcceptedIffUnseen(c: seq<NumberPair>, max: nat, gaps: seq<Gap>, k: nat)
    requires Chain(c) && 0 < k < |c| && Bounded(c, gaps) && Reachable(gaps, max) && gaps != []
    ensures Step(max, gaps, Message(c, k)).verdict == Returns(Unseen(gaps, c[k]))
  {
    StepOnChain(c, max, gaps, k);
    ExactRefinement(gaps, max, c[k - 1], c[k]);
    assert Between(c[k - 1], c[k], c[k]);
  }

  lemma NumberRemains(c: seq<NumberPair>, order: seq<nat>, k: nat)
    requires Chain(c) && Indices(c, order) && order != [] && 0 < k < |c|
    ensures StillDue(c, order, c[k]) <==> k > order[0] && k !in order
  {
    IntervalStillDue(c, order, k);
    assert Between(c[k - 1], c[k], c[k]);
  }

  /** One delivery, in terms of what remains and what was lost. */
  lemma DeliverOne(c: seq<NumberPair>, max: nat, gaps: seq<Gap>, order: seq<nat>, k: nat, lost: iset<NumberPair>)
    requires Chain(c) && Indices(c, order) && order != [] && k < |c| && Bounded(c, gaps)
    requires Reachable(gaps, max) && gaps != [] && UnseenBut(c, order, gaps, lost)
    ensures var m := Step(max, gaps, Message(c, k));
      && m.verdict == Returns(k > order[0] && k !in order && c[k] !in lost)
      && UnseenBut(c, order + [k], m.gaps, lost + iset x | GivenUpAt(max, gaps, Message(c, k), x))
  {
    if k == 0 {
      FirstOfChainIsLate(c, max, gaps, order, lost);
      SameStillDue(c, order, k);
    } else {
      AcceptedIffUnseen(c, max, gaps, k);
      NumberRemains(c, order, k);
      if Unseen(gaps, c[k]) {
        DeliverCuts(c, max, gaps, order, k, lost);
      } else {
        DeliverLeaves(c, max, gaps, order, k, lost);
      }
    }
  }

  lemma FirstDelivery(c: seq<NumberPair>, max: nat, k: nat)
    requires Chain(c) && k < |c|
    ensures var m := Step(max, [], Message(c, k));
      && m.verdict == Returns(true) && m.gaps != []
      && (forall x :: Unseen(m.gaps, x) <==> StillDue(c, [k], x))
  {
    assert k > 0 ==> Less(c[k - 1], c[k]);
    var gaps := [Gap(c[k], Infinite)];
    forall x ensures Unseen(gaps, x) <==> StillDue(c, [k], x) {
      if Less(c[k], x) { assert InGap(gaps[0], x); }
    }
  }

  lemma AfterDelivery(c: seq<NumberPair>, max: nat, order: seq<nat>)
    requires Indices(c, order) && order != []
    ensures var n := |order| - 1;
      && Indices(c, order[..n]) && Deliveries(c, order)[..n] == Deliveries(c, order[..n])
      && After(max, Deliveries(c, order)) ==
         Step(max, After(max, Deliveries(c, order[..n])), Message(c, order[n])).gaps
  {
    DeliveriesPrefix(c, order, |order| - 1);
  }

  ghost function Lost(max: nat, run: seq<Arrival>): iset<NumberPair> {
    iset x | GivenUp(max, run, x)
  }

  lemma GivenUpEarlier(max: nat, run: seq<Arrival>, n: nat, x: NumberPair)
    requires n <= |run| && GivenUp(max, run[..n], x)
    ensures GivenUp(max, run, x)
  {
    var q := run[..n];
    var i :| 0 <= i < n && GivenUpAt(max, After(max, q[..i]), q[i], x);
    assert q[..i] == run[..i] && q[i] == run[i];
  }

  lemma GivenUpLast(max: nat, run: seq<Arrival>, x: NumberPair)
    requires run != []
    ensures var q, last := run[..|run| - 1], run[|run| - 1];
      GivenUp(max, run, x) ==> GivenUp(max, q, x) || GivenUpAt(max, After(max, q), last, x)
  {
    if GivenUp(max, run, x) {
      var q := run[..|run| - 1];
      var i :| 0 <= i < |run| && GivenUpAt(max, After(max, run[..i]), run[i], x);
      if i < |q| {
        assert q[..i] == run[..i] && q[i] == run[i];
      }
    }
  }

  lemma LostGrows(max: nat, run: seq<Arrival>)
    requires run != []
    ensures var q, last := run[..|run| - 1], run[|run| - 1];
      Lost(max, run) == Lost(max, q) + iset x | GivenUpAt(max, After(max, q), last, x)
  {
    var q, last := run[..|run| - 1], run[|run| - 1];
    forall x ensures GivenUp(max, run, x) <==> GivenUp(max, q, x) || GivenUpAt(max, After(max, q), last, x) {
      GivenUpLast(max, run, x);
      if GivenUp(max, q, x) {
        GivenUpEarlier(max, run, |q|, x);
      }
    }
  }

  /** After any deliveries, what is unseen is what remains of the chain, but for what was given up. */
  lemma {:induction false} WhatIsUnseen(c: seq<NumberPair>, max: nat, order: seq<nat>)
    requires Chain(c) && Indices(c, order) && max >= 1 && order != []
    ensures var run := Deliveries(c, order); var gaps := After(max, run);
      gaps != [] && UnseenBut(c, order, gaps, Lost(max, run))
  {
    var n, run := |order| - 1, Deliveries(c, order);
    AfterDelivery(c, max, order);
    LostGrows(max, run);
    DeliveryBounded(c, max, order[..n]);
    var gaps := After(max, run[..n]);
    if n == 0 {
      FirstDelivery(c, max, order[0]);
      assert order == [order[0]] && run[..0] == [];
    } else {
      WhatIsUnseen(c, max, order[..n]);
      DeliverOne(c, max, gaps, order[..n], order[n], Lost(max, run[..n]));
      MarkKeepsReachable(gaps, max, run[n].previous, run[n].number);
      LastSplit(order);
    }
  }

  /**
   * A message is accepted exactly when it is the first one delivered, or lies beyond that one in the
   * chain, is delivered for the first time, and its number has not been given up to the capacity.
   */
  lemma AcceptanceWithDrops(c: seq<NumberPair>, max: nat, order: seq<nat>, i: nat)
    requires Chain(c) && Indices(c, order) && max >= 1 && i < |order|
    ensures var run := Deliveries(c, order);
      AcceptedAt(max, run, i) <==>
      i == 0 || (order[i] > order[0] && order[i] !in order[..i] && !GivenUp(max, run[..i], c[order[i]]))
  {
    var run, q := Deliveries(c, order), order[..i];
    DeliveriesPrefix(c, order, i);
    if i == 0 {
      assert run[..0] == [];
      FirstDelivery(c, max, order[0]);
    } else {
      WhatIsUnseen(c, max, q);
      DeliveryBounded(c, max, q);
      DeliverOne(c, max, After(max, Deliveries(c, q)), q, order[i], Lost(max, run[..i]));
    }
  }

  lemma NothingGivenUp(max: nat, run: seq<Arrival>, n: nat)
    requires NoDrops(max, run) && n <= |run|
    ensures Lost(max, run[..n]) == iset{}
  {
    forall x ensures !GivenUp(max, run[..n], x) {
      forall i | 0 <= i < n ensures !GivenUpAt(max, After(max, run[..n][..i]), run[..n][i], x) {
        assert run[..n][..i] == run[..i];
        assert KeepsAllGaps(max, After(max, run[..i]), run[i]);
      }
    }
  }

  lemma WhatRemains(c: seq<NumberPair>, max: nat, order: seq<nat>)
    requires Chain(c) && Indices(c, order) && max >= 1 && order != []
    requires NoDrops(max, Deliveries(c, order))
    ensures forall x :: Unseen(After(max, Deliveries(c, order)), x) <==> StillDue(c, order, x)
    ensures After(max, Deliveries(c, order)) != []
  {
    WhatIsUnseen(c, max, order);
    NothingGivenUp(max, Deliveries(c, order), |order|);
    assert Deliveries(c, order)[..|order|] == Deliveries(c, order);
  }

  /** While nothing is lost to the capacity limit, every first delivery beyond the first of all is accepted. */
  lemma Completeness(c: seq<NumberPair>, max: nat, order: seq<nat>, i: nat)
    requires Chain(c) && Indices(c, order) && max >= 1 && i < |order|
    requires NoDrops(max, Deliveries(c, order))
    ensures AcceptedAt(max, Deliveries(c, order), i) <==> i == 0 || (order[i] > order[0] && order[i] !in order[..i])
  {
    AcceptanceWithDrops(c, max, order, i);
    NothingGivenUp(max, Deliveries(c, order), i);
    assert c[order[i]] !in Lost(max, Deliveries(c, order)[..i]);
  }

  /** The final list depends only on the first message delivered and on the set of the others. */
  lemma OrderIndependence(c: seq<NumberPair>, max: nat, order: seq<nat>, order': seq<nat>)
    requires Chain(c) && Indices(c, order) && Indices(c, order') && max >= 1
    requires order != [] && order' != [] && order[0] == order'[0]
    requires forall k :: k in order <==> k in order'
    requires NoDrops(max, Deliveries(c, order)) && NoDrops(max, Deliveries(c, order'))
    ensures After(max, Deliveries(c, order)) == After(max, Deliveries(c, order'))
  {
    WhatRemains(c, max, order);
    WhatRemains(c, max, order');
    DeliveryBounded(c, max, order);
    DeliveryBounded(c, max, order');
    var a, b := After(max, Deliveries(c, order)), After(max, Deliveries(c, order'));
    forall x: NumberPair | x.NumberPair? ensures Covered(a, x) <==> Covered(b, x) {
      assert Unseen(a, x) <==> StillDue(c, order, x);
      assert Unseen(b, x) <==> StillDue(c, order', x);
    }
    OrderedUnique(a, b);
  }
}
