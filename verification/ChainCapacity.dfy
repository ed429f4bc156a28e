/** How many gaps a chain can leave: when the capacity of a detector loses nothing of it. */
module ChainCapacity {
  import opened Collections
  import opened Numbers
  import opened GapLists
  import opened Detectors
  import opened DetectorRuns
  import opened Chains

  // ----- chains of up to twice the capacity -----

  /** All bounds of the gaps. */
  function Bounds(gaps: seq<Gap>): set<NumberPair> {
    if gaps == [] then {}
    else
      var last := gaps[|gaps| - 1];
      Bounds(gaps[..|gaps| - 1]) + {last.lower, last.upper}
  }

  function NumbersOf(c: seq<NumberPair>): set<NumberPair> {
    if c == [] then {} else NumbersOf(c[..|c| - 1]) + {c[|c| - 1]}
  }

  lemma {:induction false} BoundsNotAbove(gaps: seq<Gap>, x: NumberPair)
    requires Ordered(gaps) && x in Bounds(gaps)
    ensures gaps != [] && !Less(gaps[|gaps| - 1].upper, x)
  {
    var q, last := gaps[..|gaps| - 1], gaps[|gaps| - 1];
    if x != last.lower && x != last.upper {
      BoundsNotAbove(q, x);
      assert Less(gaps[|q| - 1].upper, last.lower);
    }
  }

  /** The bounds of separated gaps are all different. */
  lemma {:induction false} BoundsDistinct(gaps: seq<Gap>)
    requires Ordered(gaps)
    ensures |Bounds(gaps)| == 2 * |gaps|
  {
    if gaps == [] {
    } else {
      var q, last := gaps[..|gaps| - 1], gaps[|gaps| - 1];
      BoundsDistinct(q);
      forall x | x in Bounds(q) ensures x != last.lower && x != last.upper {
        BoundsNotAbove(q, x);
        assert Less(gaps[|q| - 1].upper, last.lower);
      }
      assert |Bounds(q) + {last.lower, last.upper}| == |Bounds(q)| + 2;
    }
  }

  lemma {:induction false} BoundsOnChain(c: seq<NumberPair>, gaps: seq<Gap>)
    requires Bounded(c, gaps)
    ensures Bounds(gaps) <= NumbersOf(c) + {Infinite}
  {
    if gaps == [] {
    } else {
      var last := gaps[|gaps| - 1];
      BoundsOnChain(c, gaps[..|gaps| - 1]);
      NumberOnChain(c, last.lower);
      if last.upper != Infinite { NumberOnChain(c, last.upper); }
    }
  }

  lemma {:induction false} NumberOnChain(c: seq<NumberPair>, x: NumberPair)
    requires x in c
    ensures x in NumbersOf(c) && |NumbersOf(c)| <= |c|
  {
    var q := c[..|c| - 1];
    if x in q {
      NumberOnChain(q, x);
    }
    NumbersNotMore(c);
  }

  lemma {:induction false} NumbersNotMore(c: seq<NumberPair>)
    ensures |NumbersOf(c)| <= |c|
  {
    if c == [] {
    } else {
      NumbersNotMore(c[..|c| - 1]);
    }
  }

  /** Each gap takes two numbers of the chain; the last one takes one, and infinity. */
  lemma GapsFitChain(c: seq<NumberPair>, gaps: seq<Gap>)
    requires Ordered(gaps) && Bounded(c, gaps)
    ensures 2 * |gaps| <= |c| + 1
  {
    BoundsDistinct(gaps);
    BoundsOnChain(c, gaps);
    NumbersNotMore(c);
    SubsetSize(Bounds(gaps), NumbersOf(c) + {Infinite});
  }

  lemma ShortChainKeepsGaps(c: seq<NumberPair>, max: nat, gaps: seq<Gap>, k: nat)
    requires Chain(c) && k < |c| <= 2 * max && Bounded(c, gaps) && Reachable(gaps, max)
    ensures KeepsAllGaps(max, gaps, Message(c, k))
  {
    if gaps != [] && k > 0 {
      ScanMeaning(gaps, |gaps|, c[k - 1], c[k]);
      match Scan(gaps, |gaps|, c[k - 1], c[k])
      case Inside(j) =>
        CutCanonical(gaps, j, c[k - 1], c[k]);
        CutBounded(c, gaps, j, k);
        GapsFitChain(c, Cut(gaps, j, c[k - 1], c[k]));
      case _ =>
    }
  }

  lemma ShortChainsNeverDrop(c: seq<NumberPair>, max: nat, order: seq<nat>)
    requires Chain(c) && Indices(c, order) && 1 <= max && |c| <= 2 * max
    ensures NoDrops(max, Deliveries(c, order))
  {
    var run := Deliveries(c, order);
    forall i | 0 <= i < |run| ensures KeepsAllGaps(max, After(max, run[..i]), run[i]) {
      DeliveriesPrefix(c, order, i);
      DeliveryBounded(c, max, order[..i]);
      ShortChainKeepsGaps(c, max, After(max, run[..i]), order[i]);
    }
  }

  // ----- longer chains -----

  /** Every second message, from the first on. */
  function EverySecond(n: nat): seq<nat> {
    seq(n, i requires 0 <= i < n => 2 * i)
  }

  /** The gaps that n such deliveries leave: one for each message skipped, and the last one. */
  function Comb(c: seq<NumberPair>, n: nat): (gaps: seq<Gap>)
    requires 0 < n && 2 * n <= |c| + 1
    ensures |gaps| == n
  {
    seq(n, i requires 0 <= i < n => Gap(c[2 * i], if i == n - 1 then Infinite else c[2 * i + 1]))
  }

  lemma CombGrows(c: seq<NumberPair>, n: nat)
    requires Chain(c) && 0 < n && 2 * n < |c|
    ensures Scan(Comb(c, n), n, c[2 * n - 1], c[2 * n]) == Inside(n - 1)
    ensures Cut(Comb(c, n), n - 1, c[2 * n - 1], c[2 * n]) == Comb(c, n + 1)
  {
    var gaps, p, x := Comb(c, n), c[2 * n - 1], c[2 * n];
    assert gaps[n - 1] == Gap(c[2 * n - 2], Infinite) && Less(c[2 * n - 2], p);
    assert Remainder(gaps[n - 1], p, x) == [Gap(c[2 * n - 2], p), Gap(x, Infinite)];
  }

  lemma CombStep(c: seq<NumberPair>, max: nat, n: nat)
    requires Chain(c) && 0 < n < max && 2 * n < |c|
    ensures Step(max, Comb(c, n), Message(c, 2 * n)).gaps == Comb(c, n + 1)
  {
    CombGrows(c, n);
    assert Less(c[2 * n - 1], c[2 * n]);
  }

  lemma EverySecondPrefix(n: nat, k: nat)
    requires k <= n
    ensures EverySecond(n)[..k] == EverySecond(k)
  {
  }

  /** As long as they fit, nothing is lost. */
  lemma {:induction false} AfterEverySecond(c: seq<NumberPair>, max: nat, n: nat)
    requires Chain(c) && 0 < n <= max && 2 * n <= |c| + 1
    ensures Indices(c, EverySecond(n)) && After(max, Deliveries(c, EverySecond(n))) == Comb(c, n)
  {
    AfterDelivery(c, max, EverySecond(n));
    EverySecondPrefix(n, n - 1);
    if n == 1 {
      assert Deliveries(c, EverySecond(0)) == [] && Comb(c, 1) == [Gap(c[0], Infinite)];
    } else {
      AfterEverySecond(c, max, n - 1);
      CombStep(c, max, n - 1);
    }
  }

  /** One delivery more does not fit: the gap of the first message skipped is given up. */
  lemma CombOverflows(c: seq<NumberPair>, max: nat)
    requires Chain(c) && 1 <= max && 2 * max < |c|
    ensures !KeepsAllGaps(max, Comb(c, max), Message(c, 2 * max))
    ensures GivenUpAt(max, Comb(c, max), Message(c, 2 * max), c[1])
  {
    CombGrows(c, max);
    assert Less(c[2 * max - 1], c[2 * max]) && Less(c[0], c[1]);
  }

  lemma EverySecondOverflows(c: seq<NumberPair>, max: nat)
    requires Chain(c) && 1 <= max && 2 * max < |c|
    ensures var order := EverySecond(max + 1);
      && Indices(c, order) && !NoDrops(max, Deliveries(c, order)) && GivenUp(max, Deliveries(c, order), c[1])
  {
    var order := EverySecond(max + 1);
    AfterEverySecond(c, max, max);
    EverySecondPrefix(max + 1, max);
    DeliveriesPrefix(c, order, max);
    CombOverflows(c, max);
    assert Deliveries(c, order)[max] == Message(c, 2 * max);
  }

  /** Every second message, and then the first one skipped. */
  function WithSkipped(n: nat): seq<nat> {
    EverySecond(n) + [1]
  }

  lemma WithSkippedParts(n: nat)
    requires n > 0
    ensures var order := WithSkipped(n);
      |order| == n + 1 && order[..n] == EverySecond(n) && order[n] == 1 && order[0] == 0 && 1 !in order[..n]
  {
    assert WithSkipped(n)[..n] == EverySecond(n);
  }

  /** The first message skipped is then refused, although it never arrived before. */
  lemma LongChainLosesMessage(c: seq<NumberPair>, max: nat)
    requires Chain(c) && 1 <= max && 2 * max < |c|
    ensures var order := WithSkipped(max + 1);
      && Indices(c, order) && 1 !in order[..max + 1]
      && !AcceptedAt(max, Deliveries(c, order), max + 1)
  {
    var order := WithSkipped(max + 1);
    WithSkippedParts(max + 1);
    EverySecondOverflows(c, max);
    assert Indices(c, order);
    DeliveriesPrefix(c, order, max + 1);
    AcceptanceWithDrops(c, max, order, max + 1);
  }

  /**
   * No order of deliveries loses anything of a chain, if and only if the chain has at most twice as many
   * messages as the detector has room for gaps.
   */
  lemma NothingDropsIff(c: seq<NumberPair>, max: nat)
    requires Chain(c) && 1 <= max
    ensures (forall order :: Indices(c, order) ==> NoDrops(max, Deliveries(c, order))) <==> |c| <= 2 * max
  {
    if |c| <= 2 * max {
      forall order | Indices(c, order) ensures NoDrops(max, Deliveries(c, order)) {
        ShortChainsNeverDrop(c, max, order);
      }
    } else {
      EverySecondOverflows(c, max);
    }
  }
}
