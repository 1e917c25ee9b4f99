/**
 * User keys and the order in which the predictor compares them.
 *
 * Keys are byte strings compared bytewise, the way RocksDB's default
 * comparator compares two `Slice`s: the first differing byte decides
 * (as an unsigned value), and a proper prefix sorts first.
 */
module KeyOrder {

  /** One byte of a user key, as an unsigned value. */
  type Byte = b: int | 0 <= b < 256

  /** A user key. */
  type Key = seq<Byte>

  /**
   * Three-way comparison of two keys: negative, zero or positive as `a`
   * sorts before, equal to or after `b`.
   */
  function Compare(a: Key, b: Key): (c: int)
    ensures -1 <= c <= 1
    ensures c == 0 <==> a == b
  {
    if a == [] then (if b == [] then 0 else -1)
    else if b == [] then 1
    else if a[0] < b[0] then -1
    else if a[0] > b[0] then 1
    else Compare(a[1..], b[1..])
  }

  /** Swapping the operands flips the sign of the comparison. */
  lemma {:induction false} CompareAntisymmetric(a: Key, b: Key)
    ensures Compare(a, b) == -Compare(b, a)
  {
    if a != [] && b != [] && a[0] == b[0] {
      CompareAntisymmetric(a[1..], b[1..]);
    }
  }

  /** "Sorts no later than" is transitive, and strictly so if either step is strict. */
  lemma {:induction false} CompareTransitive(a: Key, b: Key, c: Key)
    requires Compare(a, b) <= 0 && Compare(b, c) <= 0
    ensures Compare(a, c) <= 0
    ensures Compare(a, b) < 0 || Compare(b, c) < 0 ==> Compare(a, c) < 0
  {
    if a != [] && b != [] && c != [] && a[0] == b[0] && b[0] == c[0] {
      CompareTransitive(a[1..], b[1..], c[1..]);
    }
  }
}
