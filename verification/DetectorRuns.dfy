/** Whole runs of markAndCheck calls on one detector. */
module DetectorRuns {
  import opened Numbers
  import opened Options
  import opened GapLists
  import opened Detectors

  /** One call: the numbers that a message carries. */
  datatype Arrival = Arrival(previous: Option<NumberPair>, number: NumberPair)

  ghost predicate Finite(run: seq<Arrival>) {
    forall i :: 0 <= i < |run| ==> run[i].number.NumberPair?
  }

  /** The gap list after the run, from an empty detector. */
  function After(max: nat, run: seq<Arrival>): seq<Gap> {
    if run == [] then []
    else Step(max, After(max, run[..|run| - 1]), run[|run| - 1]).gaps
  }

  function Step(max: nat, gaps: seq<Gap>, a: Arrival): Marked {
    Mark(gaps, max, a.previous, a.number)
  }

  /** What the call at position i of the run returns. */
  function VerdictAt(max: nat, run: seq<Arrival>, i: nat): Verdict
    requires i < |run|
  {
    Step(max, After(max, run[..i]), run[i]).verdict
  }

  predicate AcceptedAt(max: nat, run: seq<Arrival>, i: nat)
    requires i < |run|
  {
    VerdictAt(max, run, i) == Returns(true)
  }

  lemma {:induction false} RunsKeepReachable(max: nat, run: seq<Arrival>)
    requires max >= 1 && Finite(run)
    ensures Reachable(After(max, run), max)
  {
    if run == [] {
    } else {
      var q, a := run[..|run| - 1], run[|run| - 1];
      RunsKeepReachable(max, q);
      MarkKeepsReachable(After(max, q), max, a.previous, a.number);
    }
  }

  // ----- at most once -----

  /** A seen number never becomes unseen again. */
  lemma StepShrinks(max: nat, gaps: seq<Gap>, a: Arrival, x: NumberPair)
    requires Reachable(gaps, max) && a.number.NumberPair? && Unseen(Step(max, gaps, a).gaps, x)
    ensures Unseen(gaps, x)
  {
    if gaps != [] && Step(max, gaps, a).verdict == Returns(true) {
      match a.previous
      case None => NullPreviousRefinement(gaps, max, a.number);
      case Some(p) => ExactRefinement(gaps, max, p, a.number);
    }
  }

  lemma AcceptTakesOut(max: nat, gaps: seq<Gap>, a: Arrival)
    requires Reachable(gaps, max) && a.number.NumberPair? && Step(max, gaps, a).verdict == Returns(true)
    ensures var gaps' := Step(max, gaps, a).gaps;
      && gaps' != [] && Unseen(gaps, a.number) && !Unseen(gaps', a.number)
      && (a.previous.Some? ==> NoneUnseen(gaps', a.previous.value, a.number))
  {
    MarkKeepsReachable(gaps, max, a.previous, a.number);
    if gaps != [] {
      match a.previous
      case None =>
        NullPreviousRefinement(gaps, max, a.number);
        assert Between(gaps[|gaps| - 1].lower, a.number, a.number);
      case Some(p) =>
        ExactRefinement(gaps, max, p, a.number);
        assert Between(p, a.number, a.number);
    }
  }

  lemma {:induction false} RunShrinks(max: nat, run: seq<Arrival>, i: nat, x: NumberPair)
    requires max >= 1 && Finite(run) && i <= |run| && Unseen(After(max, run), x)
    ensures Unseen(After(max, run[..i]), x)
    decreases |run| - i
  {
    if i == |run| {
      assert run[..i] == run;
    } else {
      RunShrinks(max, run, i + 1, x);
      assert run[..i + 1][..i] == run[..i] && run[..i + 1][i] == run[i];
      RunsKeepReachable(max, run[..i]);
      StepShrinks(max, After(max, run[..i]), run[i], x);
    }
  }

  lemma StaysSeen(max: nat, run: seq<Arrival>, i: nat, x: NumberPair)
    requires max >= 1 && Finite(run) && i <= |run| && !Unseen(After(max, run[..i]), x)
    ensures !Unseen(After(max, run), x) && After(max, run) != []
  {
    if Unseen(After(max, run), x) {
      RunShrinks(max, run, i, x);
    }
  }

  lemma AfterPrefix(max: nat, run: seq<Arrival>, i: nat)
    requires i < |run|
    ensures After(max, run[..i + 1]) == Step(max, After(max, run[..i]), run[i]).gaps
  {
    assert run[..i + 1][..i] == run[..i];
  }

  /** Over any run, with null predecessors and capacity drops, no number is accepted twice. */
  lemma AtMostOnce(max: nat, run: seq<Arrival>, i: nat, j: nat)
    requires max >= 1 && Finite(run) && i < j < |run| && run[i].number == run[j].number
    ensures !(AcceptedAt(max, run, i) && AcceptedAt(max, run, j))
  {
    if AcceptedAt(max, run, i) && AcceptedAt(max, run, j) {
      RunsKeepReachable(max, run[..i]);
      RunsKeepReachable(max, run[..j]);
      AcceptTakesOut(max, After(max, run[..i]), run[i]);
      AcceptTakesOut(max, After(max, run[..j]), run[j]);
      AfterPrefix(max, run, i);
      assert run[..j][..i + 1] == run[..i + 1];
      RunShrinks(max, run[..j], i + 1, run[j].number);
    }
  }

  /** Repeating an accepted call, however much later, is answered with false and changes nothing. */
  lemma RepeatIsDuplicate(max: nat, run: seq<Arrival>, i: nat)
    requires max >= 1 && Finite(run) && i < |run| && AcceptedAt(max, run, i)
    ensures Step(max, After(max, run), run[i]) == Marked(After(max, run), Returns(false))
  {
    var a := run[i];
    var gaps := After(max, run);
    RunsKeepReachable(max, run);
    RunsKeepReachable(max, run[..i]);
    AcceptTakesOut(max, After(max, run[..i]), a);
    AfterPrefix(max, run, i);
    forall x | !Unseen(After(max, run[..i + 1]), x) ensures !Unseen(gaps, x) {
      StaysSeen(max, run, i + 1, x);
    }
    StaysSeen(max, run, i + 1, a.number);
    match a.previous
    case None => NullPreviousRefinement(gaps, max, a.number);
    case Some(p) => ExactRefinement(gaps, max, p, a.number);
  }

  /** An answer of false stays false, whatever arrives next. */
  lemma FalseStaysFalse(max: nat, gaps: seq<Gap>, a: Arrival, b: Arrival)
    requires Reachable(gaps, max) && a.number.NumberPair? && b.number.NumberPair?
    requires Step(max, gaps, b).verdict == Returns(false)
    ensures Step(max, Step(max, gaps, a).gaps, b).verdict == Returns(false)
  {
    var gaps' := Step(max, gaps, a).gaps;
    MarkKeepsReachable(gaps, max, a.previous, a.number);
    forall x | Unseen(gaps', x) ensures Unseen(gaps, x) {
      StepShrinks(max, gaps, a, x);
    }
    match b.previous
    case None =>
      NullPreviousRefinement(gaps, max, b.number);
      NullPreviousRefinement(gaps', max, b.number);
    case Some(p) =>
      ExactRefinement(gaps, max, p, b.number);
      ExactRefinement(gaps', max, p, b.number);
  }

  /** The call that follows an accepting one with the same numbers is answered with false. */
  lemma AcceptedThenFalse(max: nat, gaps: seq<Gap>, a: Arrival)
    requires Reachable(gaps, max) && a.number.NumberPair? && Step(max, gaps, a).verdict == Returns(true)
    ensures Step(max, Step(max, gaps, a).gaps, a).verdict == Returns(false)
  {
    var gaps' := Step(max, gaps, a).gaps;
    MarkKeepsReachable(gaps, max, a.previous, a.number);
    AcceptTakesOut(max, gaps, a);
    match a.previous
    case None => NullPreviousRefinement(gaps', max, a.number);
    case Some(p) => ExactRefinement(gaps', max, p, a.number);
  }
}
