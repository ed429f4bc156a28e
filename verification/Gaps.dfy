/** The detector's gap list, and the set of unseen numbers that it stands for. */
module GapLists {
  import opened Numbers
  import opened Options

  /** The half-open interval (lower, upper]. */
  datatype Gap = Gap(lower: NumberPair, upper: NumberPair)

  /** Sorted, strictly separated, and without an empty gap. */
  ghost predicate Ordered(gaps: seq<Gap>) {
    && (forall i :: 0 <= i < |gaps| ==> Less(gaps[i].lower, gaps[i].upper))
    && (forall i, j :: 0 <= i < j < |gaps| ==> Less(gaps[i].upper, gaps[j].lower))
  }

  ghost predicate Canonical(gaps: seq<Gap>) {
    Ordered(gaps) && gaps != [] && gaps[|gaps| - 1].upper == Infinite
  }

  predicate InGap(g: Gap, x: NumberPair) {
    Less(g.lower, x) && !Less(g.upper, x)
  }

  ghost predicate Covered(gaps: seq<Gap>, x: NumberPair) {
    exists i :: 0 <= i < |gaps| && InGap(gaps[i], x)
  }

  /** x can still be accepted; before the first message, everything can. */
  ghost predicate Unseen(gaps: seq<Gap>, x: NumberPair) {
    gaps == [] || Covered(gaps, x)
  }

  predicate Between(p: NumberPair, x: NumberPair, n: NumberPair) {
    Less(p, x) && !Less(n, x)
  }

  // ----- what markAndCheck does to the list -----

  datatype Hit = Inside(i: nat) | Mismatch | Miss

  /** The backward search for the gap that holds previous. */
  function Scan(gaps: seq<Gap>, i: nat, p: NumberPair, n: NumberPair): (h: Hit)
    requires i <= |gaps|
    ensures h.Inside? ==> h.i < i
  {
    if i == 0 then Miss
    else
      var g := gaps[i - 1];
      if !Less(p, g.upper) then Miss
      else if !Less(p, g.lower) then (if Less(g.upper, n) then Mismatch else Inside(i - 1))
      else if Less(g.lower, n) then Mismatch
      else Scan(gaps, i - 1, p, n)
  }

  /** What is left of a gap when (p, n] is taken out of it. */
  function Remainder(g: Gap, p: NumberPair, n: NumberPair): seq<Gap> {
    (if p == g.lower then [] else [Gap(g.lower, p)]) + (if n == g.upper then [] else [Gap(n, g.upper)])
  }

  function Cut(gaps: seq<Gap>, i: nat, p: NumberPair, n: NumberPair): seq<Gap>
    requires i < |gaps|
  {
    gaps[..i] + Remainder(gaps[i], p, n) + gaps[i + 1..]
  }

  function DropLowest(gaps: seq<Gap>, max: nat): seq<Gap> {
    if |gaps| > max then gaps[1..] else gaps
  }

  datatype Verdict = Returns(isUnseen: bool) | InvalidNumberingError | GapMisMatchError

  datatype Marked = Marked(gaps: seq<Gap>, verdict: Verdict)

  /** The whole call: the new gap list, and what the caller gets. */
  function Mark(gaps: seq<Gap>, max: nat, previous: Option<NumberPair>, number: NumberPair): Marked {
    if previous.Some? && !Less(previous.value, number) then Marked(gaps, InvalidNumberingError)
    else if gaps == [] then Marked([Gap(number, Infinite)], Returns(true))
    else if previous.None? then
      var last := |gaps| - 1;
      if Less(gaps[last].lower, number) then Marked(gaps[last := gaps[last].(lower := number)], Returns(true))
      else Marked(gaps, Returns(false))
    else
      match Scan(gaps, |gaps|, previous.value, number)
      case Inside(i) => Marked(DropLowest(Cut(gaps, i, previous.value, number), max), Returns(true))
      case Mismatch => Marked(gaps, GapMisMatchError)
      case Miss => Marked(gaps, Returns(false))
  }

  // ----- the search, in terms of the unseen numbers -----

  lemma {:induction false} ScanMeaning(gaps: seq<Gap>, i: nat, p: NumberPair, n: NumberPair)
    requires Canonical(gaps) && Less(p, n) && n.NumberPair? && i <= |gaps|
    requires forall j :: i <= j < |gaps| ==> !Less(gaps[j].lower, n)
    ensures match Scan(gaps, i, p, n)
      case Inside(k) => k < i && !Less(p, gaps[k].lower) && !Less(gaps[k].upper, n)
      case Mismatch => exists x, y :: Between(p, x, n) && Between(p, y, n) && Unseen(gaps, x) && !Unseen(gaps, y)
      case Miss => forall x :: Between(p, x, n) ==> !Unseen(gaps, x)
  {
    if i == 0 {
    } else {
      var g := gaps[i - 1];
      if !Less(p, g.upper) {
      } else if !Less(p, g.lower) {
        if Less(g.upper, n) {
          assert InGap(g, g.upper);
          assert Between(p, g.upper, n) && Between(p, n, n) && Unseen(gaps, g.upper) && !Unseen(gaps, n);
        }
      } else if Less(g.lower, n) {
        var x := if Less(g.upper, n) then g.upper else n;
        assert InGap(g, x);
        assert Between(p, x, n) && Between(p, g.lower, n) && Unseen(gaps, x) && !Unseen(gaps, g.lower);
      } else {
        ScanMeaning(gaps, i - 1, p, n);
      }
    }
  }

  // ----- the cut, in terms of the unseen numbers -----

  lemma CoveredConcat(a: seq<Gap>, b: seq<Gap>, x: NumberPair)
    ensures Covered(a + b, x) <==> Covered(a, x) || Covered(b, x)
  {
    if Covered(a, x) {
      var i :| 0 <= i < |a| && InGap(a[i], x);
      assert (a + b)[i] == a[i];
    }
    if Covered(b, x) {
      var i :| 0 <= i < |b| && InGap(b[i], x);
      assert (a + b)[|a| + i] == b[i];
    }
  }

  lemma OrderedConcat(a: seq<Gap>, b: seq<Gap>)
    requires Ordered(a) && Ordered(b)
    requires a != [] && b != [] ==> Less(a[|a| - 1].upper, b[0].lower)
    ensures Ordered(a + b)
  {
    var c := a + b;
    forall i, j | 0 <= i < j < |c| ensures Less(c[i].upper, c[j].lower) {
      if i < |a| <= j {
        assert c[i] == a[i] && c[j] == b[j - |a|];
        assert !Less(a[|a| - 1].upper, a[i].upper);
        assert !Less(b[j - |a|].lower, b[0].lower);
      }
    }
  }

  lemma RemainderOrdered(g: Gap, p: NumberPair, n: NumberPair)
    requires Less(g.lower, g.upper) && Less(p, n) && !Less(p, g.lower) && !Less(g.upper, n)
    ensures var r := Remainder(g, p, n);
      && Ordered(r) && |r| <= 2
      && (r != [] ==> !Less(r[0].lower, g.lower) && !Less(g.upper, r[|r| - 1].upper))
      && (n != g.upper ==> r != [] && r[|r| - 1].upper == g.upper)
  {
  }

  lemma RemainderCovers(g: Gap, p: NumberPair, n: NumberPair, x: NumberPair)
    requires Less(g.lower, g.upper) && Less(p, n) && !Less(p, g.lower) && !Less(g.upper, n)
    ensures Covered(Remainder(g, p, n), x) <==> InGap(g, x) && !Between(p, x, n)
  {
    var r := Remainder(g, p, n);
    if InGap(g, x) && !Between(p, x, n) {
      if !Less(p, x) {
        assert InGap(r[0], x);
      } else {
        assert InGap(r[|r| - 1], x);
      }
    }
  }

  lemma CutCanonical(gaps: seq<Gap>, k: nat, p: NumberPair, n: NumberPair)
    requires Canonical(gaps) && k < |gaps| && Less(p, n) && n.NumberPair?
    requires !Less(p, gaps[k].lower) && !Less(gaps[k].upper, n)
    ensures Canonical(Cut(gaps, k, p, n)) && |Cut(gaps, k, p, n)| <= |gaps| + 1
  {
    var pre, r, post := gaps[..k], Remainder(gaps[k], p, n), gaps[k + 1..];
    RemainderOrdered(gaps[k], p, n);
    OrderedConcat(pre, r);
    if pre + r != [] && post != [] {
      var last := (pre + r)[|pre + r| - 1];
      assert last == (if r != [] then r[|r| - 1] else gaps[k - 1]);
      assert Less(gaps[k].upper, gaps[k + 1].lower);
    }
    OrderedConcat(pre + r, post);
  }

  lemma CutUnseen(gaps: seq<Gap>, k: nat, p: NumberPair, n: NumberPair, x: NumberPair)
    requires Canonical(gaps) && k < |gaps| && Less(p, n) && n.NumberPair?
    requires !Less(p, gaps[k].lower) && !Less(gaps[k].upper, n)
    ensures Covered(Cut(gaps, k, p, n), x) <==> Covered(gaps, x) && !Between(p, x, n)
  {
    var pre, r, post := gaps[..k], Remainder(gaps[k], p, n), gaps[k + 1..];
    CoveredConcat(pre + r, post, x);
    CoveredConcat(pre, r, x);
    RemainderCovers(gaps[k], p, n, x);
    assert gaps == pre + [gaps[k]] + post;
    CoveredConcat(pre + [gaps[k]], post, x);
    CoveredConcat(pre, [gaps[k]], x);
    assert Covered([gaps[k]], x) <==> InGap(gaps[k], x) by {
      if InGap(gaps[k], x) { assert InGap([gaps[k]][0], x); }
    }
    OtherGapsApart(gaps, k, p, n, x);
  }

  /** (p, n] lies in gap k, hence in no other. */
  lemma OtherGapsApart(gaps: seq<Gap>, k: nat, p: NumberPair, n: NumberPair, x: NumberPair)
    requires Ordered(gaps) && k < |gaps|
    requires !Less(p, gaps[k].lower) && !Less(gaps[k].upper, n)
    ensures Between(p, x, n) ==> !Covered(gaps[..k], x) && !Covered(gaps[k + 1..], x)
  {
    if Between(p, x, n) {
      if Covered(gaps[..k], x) || Covered(gaps[k + 1..], x) {
        assert false;
      }
    }
  }

  lemma DropLowestCanonical(gaps: seq<Gap>, max: nat)
    requires Canonical(gaps) && max >= 1
    ensures var d := DropLowest(gaps, max);
      Canonical(d) && |d| <= |gaps| && (|gaps| <= max + 1 ==> |d| <= max)
  {
  }

  lemma DropLowestUnseen(gaps: seq<Gap>, max: nat, x: NumberPair)
    requires Canonical(gaps) && max >= 1
    ensures Covered(DropLowest(gaps, max), x) <==> Covered(gaps, x) && !(|gaps| > max && InGap(gaps[0], x))
  {
    if |gaps| > max {
      assert gaps == [gaps[0]] + gaps[1..];
      CoveredConcat([gaps[0]], gaps[1..], x);
      if InGap(gaps[0], x) {
        assert InGap([gaps[0]][0], x);
        if Covered(gaps[1..], x) {
          assert false;
        }
      }
    }
  }

  // ----- uniqueness of the representation -----

  ghost predicate SameCover(a: seq<Gap>, b: seq<Gap>) {
    forall x: NumberPair :: x.NumberPair? ==> (Covered(a, x) <==> Covered(b, x))
  }

  /** A number in (l, u] that is finite. */
  function Inner(l: NumberPair, u: NumberPair): (x: NumberPair)
    requires Less(l, u)
    ensures x.NumberPair? && Less(l, x) && !Less(u, x)
  {
    if u.NumberPair? then u else NumberPair(l.a, l.b + 1)
  }

  lemma NotCoveredBefore(b: seq<Gap>, x: NumberPair)
    requires Ordered(b) && (b != [] ==> !Less(b[0].lower, x))
    ensures !Covered(b, x)
  {
    forall i | 0 <= i < |b| ensures !InGap(b[i], x) {
      if i > 0 { assert Less(b[0].upper, b[i].lower); }
    }
  }

  lemma HeadLowerNotLess(a: seq<Gap>, b: seq<Gap>)
    requires Ordered(a) && Ordered(b) && a != [] && SameCover(a, b)
    ensures b != [] && !Less(a[0].lower, b[0].lower)
  {
    if b == [] || Less(a[0].lower, b[0].lower) {
      var x := if b == [] || Less(a[0].upper, b[0].lower) then Inner(a[0].lower, a[0].upper) else b[0].lower;
      assert InGap(a[0], x);
      NotCoveredBefore(b, x);
      assert false;
    }
  }

  lemma HeadUpperNotLess(a: seq<Gap>, b: seq<Gap>)
    requires Ordered(a) && Ordered(b) && a != [] && b != [] && SameCover(a, b) && a[0].lower == b[0].lower
    ensures !Less(a[0].upper, b[0].upper)
  {
    if Less(a[0].upper, b[0].upper) {
      var x := if |a| == 1 || Less(b[0].upper, a[1].lower) then Inner(a[0].upper, b[0].upper) else a[1].lower;
      assert InGap(b[0], x);
      assert false;
    }
  }

  lemma TailCovers(a: seq<Gap>, x: NumberPair)
    requires Ordered(a) && a != []
    ensures Ordered(a[1..]) && (Covered(a[1..], x) <==> Covered(a, x) && !InGap(a[0], x))
  {
    assert a == [a[0]] + a[1..];
    CoveredConcat([a[0]], a[1..], x);
    if InGap(a[0], x) {
      assert InGap([a[0]][0], x);
      if a[1..] != [] { assert Less(a[0].upper, a[1].lower); }
      NotCoveredBefore(a[1..], x);
    }
  }

  /** Two gap lists for the same unseen numbers are the same list. */
  lemma {:induction false} OrderedUnique(a: seq<Gap>, b: seq<Gap>)
    requires Ordered(a) && Ordered(b) && SameCover(a, b)
    ensures a == b
  {
    if a == [] {
      if b != [] { HeadLowerNotLess(b, a); }
    } else {
      HeadLowerNotLess(a, b);
      HeadLowerNotLess(b, a);
      HeadUpperNotLess(a, b);
      HeadUpperNotLess(b, a);
      assert a[0] == b[0];
      forall x: NumberPair | x.NumberPair? ensures Covered(a[1..], x) <==> Covered(b[1..], x) {
        TailCovers(a, x);
        TailCovers(b, x);
      }
      assert Ordered(a[1..]) && Ordered(b[1..]);
      OrderedUnique(a[1..], b[1..]);
      assert a == [a[0]] + a[1..] && b == [b[0]] + b[1..];
    }
  }
}
