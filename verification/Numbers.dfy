/** Message numbers: the NumberPair class of src/logic/DuplicateMessageDetector.ts. */
module Numbers {
  /**
   * Pairs of integers in lexicographic order. Infinite is the pair (Infinity, Infinity), the only
   * pair with a non-finite part that the detector builds.
   */
  datatype NumberPair = NumberPair(a: int, b: int) | Infinite {

    function CompareTo(other: NumberPair): (c: int) {
      if this.Infinite? || other.Infinite? then
        (if this.Infinite? then 1 else 0) - (if other.Infinite? then 1 else 0)
      else if a > other.a then 1
      else if a < other.a then -1
      else if b > other.b then 1
      else if b < other.b then -1
      else 0
    }

    predicate GreaterThan(other: NumberPair) {
      CompareTo(other) == 1
    }

    predicate EqualTo(other: NumberPair) {
      CompareTo(other) == 0
    }

    predicate GreaterThanOrEqual(other: NumberPair) {
      GreaterThan(other) || EqualTo(other)
    }
  }

  /** The order that the specifications use. */
  predicate Less(p: NumberPair, q: NumberPair) {
    p.NumberPair? && (q.Infinite? || p.a < q.a || (p.a == q.a && p.b < q.b))
  }

  /** CompareTo decides a strict total order. */
  lemma CompareToIsTotalOrder(p: NumberPair, q: NumberPair)
    ensures p.GreaterThan(q) <==> Less(q, p)
    ensures p.EqualTo(q) <==> p == q
    ensures p.GreaterThanOrEqual(q) <==> !Less(p, q)
  {
  }

  /** The order is strict, transitive and total. */
  lemma LessIsStrictTotalOrder(p: NumberPair, q: NumberPair, r: NumberPair)
    ensures !Less(p, p)
    ensures Less(p, q) && Less(q, r) ==> Less(p, r)
    ensures p == q || Less(p, q) || Less(q, p)
    ensures !(Less(p, q) && Less(q, p))
  {
  }
}
