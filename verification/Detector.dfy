/** Duplicate detection for one message chain: src/logic/DuplicateMessageDetector.ts. */
module Detectors {
  import opened Numbers
  import opened Options
  import opened GapLists

  class DuplicateMessageDetector {
    const maxNumberOfGaps: nat
    var gaps: seq<Gap>

    /** Before the first message the list is empty; from then on it is canonical and bounded. */
    ghost predicate Valid()
      reads this
    {
      Reachable(gaps, maxNumberOfGaps)
    }

    constructor (maxNumberOfGaps: nat := 10000)
      requires maxNumberOfGaps >= 1
      ensures Valid() && gaps == [] && this.maxNumberOfGaps == maxNumberOfGaps
    {
      this.maxNumberOfGaps := maxNumberOfGaps;
      gaps := [];
    }

    method MarkAndCheck(previousNumber: Option<NumberPair>, number: NumberPair) returns (verdict: Verdict)
      requires Valid() && number.NumberPair?
      modifies this`gaps
      ensures Valid()
      ensures Marked(gaps, verdict) == Mark(old(gaps), maxNumberOfGaps, previousNumber, number)
    {
      MarkKeepsReachable(gaps, maxNumberOfGaps, previousNumber, number);
      if previousNumber.Some? {
        CompareToIsTotalOrder(previousNumber.value, number);
        if previousNumber.value.GreaterThanOrEqual(number) {
          return InvalidNumberingError;
        }
      }
      if |gaps| == 0 {
        gaps := gaps + [Gap(number, Infinite)];
        return Returns(true);
      }
      if previousNumber.None? {
        CompareToIsTotalOrder(number, gaps[|gaps| - 1].lower);
        if number.GreaterThan(gaps[|gaps| - 1].lower) {
          gaps := gaps[|gaps| - 1 := gaps[|gaps| - 1].(lower := number)];
          return Returns(true);
        }
        return Returns(false);
      }
      verdict := SearchGaps(previousNumber.value, number);
    }

    /** The backward loop of markAndCheck. */
    method SearchGaps(previousNumber: NumberPair, number: NumberPair) returns (verdict: Verdict)
      requires |gaps| > 0 && Less(previousNumber, number)
      modifies this`gaps
      ensures Marked(gaps, verdict) == Mark(old(gaps), maxNumberOfGaps, Some(previousNumber), number)
    {
      var i := |gaps|;
      while i > 0
        invariant 0 <= i <= |gaps| && gaps == old(gaps)
        invariant Scan(gaps, |gaps|, previousNumber, number) == Scan(gaps, i, previousNumber, number)
      {
        i := i - 1;
        var Gap(lowerBound, upperBound) := gaps[i];
        CompareToIsTotalOrder(previousNumber, upperBound);
        CompareToIsTotalOrder(previousNumber, lowerBound);
        CompareToIsTotalOrder(number, upperBound);
        CompareToIsTotalOrder(number, lowerBound);
        if previousNumber.GreaterThanOrEqual(upperBound) {
          return Returns(false);
        }
        if previousNumber.GreaterThanOrEqual(lowerBound) {
          if number.GreaterThan(upperBound) {
            return GapMisMatchError;
          }
          TakeOut(i, previousNumber, number);
          DropLowestGapIfOverMaxNumberOfGaps();
          return Returns(true);
        }
        if number.GreaterThan(lowerBound) {
          return GapMisMatchError;
        }
      }
      verdict := Returns(false);
    }

    /** The four ways in which a gap shrinks, vanishes or is split in two. */
    method TakeOut(i: nat, previousNumber: NumberPair, number: NumberPair)
      requires i < |gaps|
      modifies this`gaps
      ensures gaps == Cut(old(gaps), i, previousNumber, number)
    {
      var Gap(lowerBound, upperBound) := gaps[i];
      CompareToIsTotalOrder(previousNumber, lowerBound);
      CompareToIsTotalOrder(number, upperBound);
      if previousNumber.EqualTo(lowerBound) {
        if number.EqualTo(upperBound) {
          gaps := gaps[..i] + gaps[i + 1..];
        } else {
          gaps := gaps[i := Gap(number, upperBound)];
        }
      } else if number.EqualTo(upperBound) {
        gaps := gaps[i := Gap(lowerBound, previousNumber)];
      } else {
        gaps := gaps[..i] + [Gap(lowerBound, previousNumber), Gap(number, upperBound)] + gaps[i + 1..];
      }
    }

    method DropLowestGapIfOverMaxNumberOfGaps()
      modifies this`gaps
      ensures gaps == DropLowest(old(gaps), maxNumberOfGaps)
    {
      if |gaps| > maxNumberOfGaps {
        gaps := gaps[1..];
      }
    }
  }

  ghost predicate Reachable(gaps: seq<Gap>, max: nat) {
    max >= 1 && (gaps == [] || (Canonical(gaps) && |gaps| <= max))
  }

  // ----- one call -----

  lemma MarkKeepsReachable(gaps: seq<Gap>, max: nat, previous: Option<NumberPair>, number: NumberPair)
    requires Reachable(gaps, max) && number.NumberPair?
    ensures var m := Mark(gaps, max, previous, number);
      Reachable(m.gaps, max) && (m.verdict != InvalidNumberingError ==> m.gaps != [])
  {
    if gaps != [] && previous.Some? && Less(previous.value, number) {
      var p := previous.value;
      ScanMeaning(gaps, |gaps|, p, number);
      match Scan(gaps, |gaps|, p, number)
      case Inside(k) =>
        CutCanonical(gaps, k, p, number);
        DropLowestCanonical(Cut(gaps, k, p, number), max);
      case _ =>
    }
  }

  ghost predicate AllUnseen(gaps: seq<Gap>, p: NumberPair, n: NumberPair) {
    forall x :: Between(p, x, n) ==> Unseen(gaps, x)
  }

  ghost predicate NoneUnseen(gaps: seq<Gap>, p: NumberPair, n: NumberPair) {
    forall x :: Between(p, x, n) ==> !Unseen(gaps, x)
  }

  /** The numbers that the capacity limit gives up when gap list c has grown too long. */
  predicate Dropped(c: seq<Gap>, max: nat, x: NumberPair) {
    |c| > max && InGap(c[0], x)
  }

  /**
   * The gap list refines the set of unseen numbers. A call with previous < number accepts exactly
   * when (previous, number] is unseen throughout, and then takes exactly that interval out (and the
   * lowest gap, if that is one too many); it says duplicate exactly when the interval is seen
   * throughout, and throws exactly when it is neither. Only an accepting call changes the list.
   */
  lemma ExactRefinement(gaps: seq<Gap>, max: nat, p: NumberPair, n: NumberPair)
    requires Reachable(gaps, max) && gaps != [] && n.NumberPair? && Less(p, n)
    ensures var m := Mark(gaps, max, Some(p), n);
      && (m.verdict == Returns(true) <==> AllUnseen(gaps, p, n))
      && (m.verdict == Returns(false) <==> NoneUnseen(gaps, p, n))
      && (m.verdict == GapMisMatchError <==> !AllUnseen(gaps, p, n) && !NoneUnseen(gaps, p, n))
      && (m.verdict != Returns(true) ==> m.gaps == gaps)
    ensures var m := Mark(gaps, max, Some(p), n);
      m.verdict == Returns(true) ==> exists c ::
        && (forall x :: Unseen(c, x) <==> Unseen(gaps, x) && !Between(p, x, n))
        && (forall x :: Unseen(m.gaps, x) <==> Unseen(c, x) && !Dropped(c, max, x))
        && |c| <= max + 1 && m.gaps == DropLowest(c, max)
  {
    ScanMeaning(gaps, |gaps|, p, n);
    assert Between(p, n, n);
    match Scan(gaps, |gaps|, p, n)
    case Inside(k) =>
      var c := Cut(gaps, k, p, n);
      CutIsExact(gaps, max, k, p, n);
      forall x | Between(p, x, n) ensures Unseen(gaps, x) {
        assert InGap(gaps[k], x);
      }
    case Mismatch =>
    case Miss =>
  }

  lemma CutIsExact(gaps: seq<Gap>, max: nat, k: nat, p: NumberPair, n: NumberPair)
    requires Reachable(gaps, max) && k < |gaps| && n.NumberPair? && Less(p, n)
    requires !Less(p, gaps[k].lower) && !Less(gaps[k].upper, n)
    ensures var c := Cut(gaps, k, p, n); var d := DropLowest(c, max);
      && |c| <= max + 1
      && (forall x :: Unseen(c, x) <==> Unseen(gaps, x) && !Between(p, x, n))
      && (forall x :: Unseen(d, x) <==> Unseen(c, x) && !Dropped(c, max, x))
  {
    var c := Cut(gaps, k, p, n);
    CutCanonical(gaps, k, p, n);
    DropLowestCanonical(c, max);
    forall x ensures Unseen(c, x) <==> Unseen(gaps, x) && !Between(p, x, n) {
      CutUnseen(gaps, k, p, n, x);
    }
    forall x ensures Unseen(DropLowest(c, max), x) <==> Unseen(c, x) && !Dropped(c, max, x) {
      DropLowestUnseen(c, max, x);
    }
  }

  /**
   * Without a predecessor, a number is accepted exactly when nothing from it upwards has been seen;
   * accepting it gives up every number between the newest one so far and itself.
   */
  lemma NullPreviousRefinement(gaps: seq<Gap>, max: nat, n: NumberPair)
    requires Reachable(gaps, max) && gaps != [] && n.NumberPair?
    ensures var m := Mark(gaps, max, None, n); var newest := gaps[|gaps| - 1].lower;
      && (m.verdict == Returns(true) <==> forall x: NumberPair :: x.NumberPair? && !Less(x, n) ==> Unseen(gaps, x))
      && (m.verdict == Returns(false) <==> exists x: NumberPair :: x.NumberPair? && !Less(x, n) && !Unseen(gaps, x))
      && (m.verdict == Returns(false) ==> m.gaps == gaps)
      && (m.verdict == Returns(true) ==>
            forall x :: Unseen(m.gaps, x) <==> Unseen(gaps, x) && !Between(newest, x, n))
  {
    var last := |gaps| - 1;
    var newest := gaps[last].lower;
    if Less(newest, n) {
      forall x: NumberPair | x.NumberPair? && !Less(x, n) ensures Unseen(gaps, x) {
        assert InGap(gaps[last], x);
      }
      var cut := gaps[last := gaps[last].(lower := n)];
      forall x ensures Unseen(cut, x) <==> Unseen(gaps, x) && !Between(newest, x, n) {
        RaiseLastGap(gaps, n, x);
      }
    } else {
      assert newest.NumberPair? && !Unseen(gaps, newest);
    }
  }

  lemma RaiseLastGap(gaps: seq<Gap>, n: NumberPair, x: NumberPair)
    requires Canonical(gaps) && Less(gaps[|gaps| - 1].lower, n) && n.NumberPair?
    ensures var last := |gaps| - 1;
      Covered(gaps[last := gaps[last].(lower := n)], x) <==> Covered(gaps, x) && !Between(gaps[last].lower, x, n)
  {
    var last := |gaps| - 1;
    var cut := gaps[last := gaps[last].(lower := n)];
    if Covered(cut, x) {
      var i :| 0 <= i < |cut| && InGap(cut[i], x);
      assert InGap(gaps[i], x);
    } else if Covered(gaps, x) && !Between(gaps[last].lower, x, n) {
      var i :| 0 <= i < |gaps| && InGap(gaps[i], x);
      assert InGap(cut[i], x);
    }
  }
}
