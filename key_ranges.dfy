/**
 * Closed key ranges `[smallest, largest]` and the overlap test the
 * predictor writes out at every place where it compares a file with a
 * range (db/compaction/compaction_predictor.cc).
 */
module KeyRanges {
  import opened KeyOrder

  datatype KeyRange = KeyRange(smallest: Key, largest: Key) {
    /** The range is not empty: its smallest key does not sort after its largest. */
    predicate WellFormed() {
      Compare(smallest, largest) <= 0
    }

    /** `k` lies inside the closed range. */
    predicate Contains(k: Key) {
      Compare(smallest, k) <= 0 && Compare(k, largest) <= 0
    }
  }

  /**
   * The predictor's overlap test: `a` does not start after `b` ends and
   * does not end before `b` starts.
   */
  function Overlaps(a: KeyRange, b: KeyRange): (r: bool)
    ensures r == !(Compare(b.smallest, a.largest) > 0 || Compare(b.largest, a.smallest) < 0)
  {
    CompareAntisymmetric(a.smallest, b.largest);
    CompareAntisymmetric(a.largest, b.smallest);
    !(Compare(a.smallest, b.largest) > 0 || Compare(a.largest, b.smallest) < 0)
  }

  /** The overlap test does not depend on the order of its two ranges. */
  lemma OverlapsSymmetric(a: KeyRange, b: KeyRange)
    ensures Overlaps(a, b) <==> Overlaps(b, a)
  {
    CompareAntisymmetric(a.smallest, b.largest);
    CompareAntisymmetric(a.largest, b.smallest);
  }

  /**
   * On well-formed ranges the overlap test means what it says: the two
   * ranges have a key in common.
   */
  lemma OverlapsIffSharedKey(a: KeyRange, b: KeyRange)
    requires a.WellFormed() && b.WellFormed()
    ensures Overlaps(a, b) <==> exists k :: a.Contains(k) && b.Contains(k)
  {
    if Overlaps(a, b) {
      CompareAntisymmetric(a.largest, b.smallest);
      CompareAntisymmetric(a.smallest, b.smallest);
      var k := if Compare(a.smallest, b.smallest) >= 0 then a.smallest else b.smallest;
      assert a.Contains(k) && b.Contains(k);
    }
    if exists k :: a.Contains(k) && b.Contains(k) {
      var k :| a.Contains(k) && b.Contains(k);
      CompareTransitive(a.smallest, k, b.largest);
      CompareTransitive(b.smallest, k, a.largest);
      CompareAntisymmetric(b.smallest, a.largest);
    }
  }
}
