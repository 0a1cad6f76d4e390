/**
 * Natural and custom orders: the local `Version` class whose `compareTo`
 * compares majors first and minors second, and the string-length comparator.
 */
module Ordering {
  import opened Int32

  datatype Version = Version(major: Int32, minor: Int32)

  /** The lexicographic order on (major, minor) that `compareTo` is meant to express. */
  predicate LexLess(a: Version, b: Version) {
    a.major < b.major || (a.major == b.major && a.minor < b.minor)
  }

  /**
   * The one subtraction `compareTo` performs on `a` and `b` does not overflow
   * an `Int`: the majors' difference when they differ, else the minors'.
   */
  predicate NoOverflow(a: Version, b: Version) {
    if a.major != b.major then Fits(a.major - b.major) else Fits(a.minor - b.minor)
  }

  function Sign(x: int): int {
    if x > 0 then 1 else if x < 0 then -1 else 0
  }

  /**
   * `Version.compareTo`: the difference of the majors when they differ, else
   * the difference of the minors when they differ, else zero. The
   * subtractions are Kotlin `Int` subtractions and may wrap.
   */
  function CompareTo(receiver: Version, other: Version): (r: Int32)
    ensures r == 0 <==> receiver == other
    ensures receiver.major != other.major ==> Congruent(r, receiver.major - other.major)
    ensures receiver.major == other.major ==> Congruent(r, receiver.minor - other.minor)
    ensures receiver.major != other.major && Fits(receiver.major - other.major) ==>
              r == receiver.major - other.major
    ensures receiver.major == other.major && receiver.minor != other.minor && Fits(receiver.minor - other.minor) ==>
              r == receiver.minor - other.minor
  {
    if receiver.major != other.major then
      WrapZero(receiver.major - other.major);
      Sub(receiver.major, other.major)
    else if receiver.minor != other.minor then
      WrapZero(receiver.minor - other.minor);
      Sub(receiver.minor, other.minor)
    else
      0
  }

  /** `a > b`, which Kotlin translates to `a.compareTo(b) > 0`. */
  predicate Greater(a: Version, b: Version)
    ensures NoOverflow(a, b) ==> (Greater(a, b) <==> LexLess(b, a))
  {
    CompareTo(a, b) > 0
  }

  /** Without overflow, the sign of `compareTo` is the lexicographic order. */
  lemma CompareToIsLexicographic(a: Version, b: Version)
    requires NoOverflow(a, b)
    ensures CompareTo(a, b) < 0 <==> LexLess(a, b)
    ensures CompareTo(a, b) > 0 <==> LexLess(b, a)
  {
  }

  /** The documented contract of `compareTo` is antisymmetric, as long as the differences fit in an `Int`. */
  lemma CompareToAntisymmetric(a: Version, b: Version)
    requires NoOverflow(a, b) && NoOverflow(b, a)
    ensures Sign(CompareTo(a, b)) == -Sign(CompareTo(b, a))
  {
    CompareToIsLexicographic(a, b);
    CompareToIsLexicographic(b, a);
  }

  /** `println(Version(1, 2) > Version(1, 3))` and `println(Version(2, 0) > Version(1, 5))`. */
  lemma GreaterExamples()
    ensures !Greater(Version(1, 2), Version(1, 3))
    ensures Greater(Version(2, 0), Version(1, 5))
  {
  }

  /** Only the performed subtraction matters: the minors' difference may overflow when the majors differ. */
  lemma NoOverflowIgnoresMinorsWhenMajorsDiffer()
    ensures !Fits(MAX - (-1))
    ensures NoOverflow(Version(1, MAX), Version(2, -1))
    ensures CompareTo(Version(1, MAX), Version(2, -1)) == -1
    ensures LexLess(Version(1, MAX), Version(2, -1))
  {
  }

  /** The subtraction wraps: a far greater major can compare as smaller. */
  lemma CompareToOverflowExample()
    ensures LexLess(Version(-1, 0), Version(MAX, 0))
    ensures CompareTo(Version(MAX, 0), Version(-1, 0)) < 0
  {
  }

  /**
   * `lengthComparator`: the length of `str1` minus that of `str2`. String
   * lengths are non-negative `Int`s, so this subtraction never wraps.
   */
  function LengthComparator(str1: string, str2: string): (r: Int32)
    requires |str1| <= MAX && |str2| <= MAX
    ensures r == |str1| - |str2|
    ensures r < 0 <==> |str1| < |str2|
  {
    Sub(|str1|, |str2|)
  }
}
