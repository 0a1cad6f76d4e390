/**
 * Ranges and progressions: the second local `Version` class (an `if`
 * instead of a `when`), closed-range membership, and the integer
 * progressions the `for` loops iterate over.
 */
module RangesAndProgressions {
  import opened Int32
  import Ordering

  // ------------------------------------------------------------ versions

  datatype Version = Version(major: Int32, minor: Int32)

  /** The same pair as a version of the ordering chapter. */
  function AsOrderingVersion(v: Version): Ordering.Version {
    Ordering.Version(v.major, v.minor)
  }

  /**
   * `Version.compareTo` of this file: the difference of the majors when they
   * differ, otherwise the difference of the minors. It agrees with the
   * ordering chapter's version on every input, overflow included.
   */
  function CompareTo(receiver: Version, other: Version): (r: Int32)
    ensures r == Ordering.CompareTo(AsOrderingVersion(receiver), AsOrderingVersion(other))
    ensures receiver.major != other.major ==> Congruent(r, receiver.major - other.major)
    ensures receiver.major == other.major ==> Congruent(r, receiver.minor - other.minor)
  {
    if receiver.major != other.major then
      Sub(receiver.major, other.major)
    else
      Sub(receiver.minor, other.minor)
  }

  /** `a <= b` on versions, lexicographically. */
  predicate LexLessEq(a: Version, b: Version) {
    a.major < b.major || (a.major == b.major && a.minor <= b.minor)
  }

  /** `start..endInclusive` over a comparable type. */
  datatype VersionRange = VersionRange(start: Version, endInclusive: Version)

  /** `value in range`: `value >= start && value <= endInclusive`, through `compareTo`. */
  predicate Contains(range: VersionRange, value: Version) {
    CompareTo(value, range.start) >= 0 && CompareTo(value, range.endInclusive) <= 0
  }

  /** When no subtraction overflows, membership is the lexicographic interval test. */
  lemma ContainsIsLexicographic(range: VersionRange, value: Version)
    requires Ordering.NoOverflow(AsOrderingVersion(value), AsOrderingVersion(range.start))
    requires Ordering.NoOverflow(AsOrderingVersion(value), AsOrderingVersion(range.endInclusive))
    ensures Contains(range, value) <==> LexLessEq(range.start, value) && LexLessEq(value, range.endInclusive)
  {
    Ordering.CompareToIsLexicographic(AsOrderingVersion(value), AsOrderingVersion(range.start));
    Ordering.CompareToIsLexicographic(AsOrderingVersion(value), AsOrderingVersion(range.endInclusive));
  }

  /** `Version(0, 9) in versionRange` is false and `Version(1, 20) in versionRange` is true. */
  lemma VersionRangeExamples()
    ensures !Contains(VersionRange(Version(1, 11), Version(1, 30)), Version(0, 9))
    ensures Contains(VersionRange(Version(1, 11), Version(1, 30)), Version(1, 20))
  {
  }

  // -------------------------------------------------------- progressions

  /**
   * The values a `for` loop visits over a progression: `first`, then
   * `first + step`, and so on while not past `bound` in the direction of `step`.
   */
  function Progression(first: int, bound: int, step: int): (r: seq<int>)
    requires step != 0
    ensures forall k :: 0 <= k < |r| ==> r[k] == first + k * step
    ensures forall k :: 0 <= k < |r| ==> if step > 0 then first <= r[k] <= bound else bound <= r[k] <= first
    ensures r == [] <==> (if step > 0 then first > bound else first < bound)
    decreases if step > 0 then bound - first else first - bound
  {
    if (step > 0 && first > bound) || (step < 0 && first < bound) then []
    else [first] + Progression(first + step, bound, step)
  }

  /** `a..b`: the integers from `a` up to and including `b`, in order. */
  function RangeTo(a: int, b: int): (r: seq<int>)
    ensures forall k :: 0 <= k < |r| ==> r[k] == a + k
    ensures forall x :: x in r ==> a <= x <= b
    ensures r == [] <==> a > b
  {
    Progression(a, b, 1)
  }

  /** `a until b`: from `a` up to `b`, with `b` itself excluded. */
  function Until(a: int, b: int): (r: seq<int>)
    ensures forall k :: 0 <= k < |r| ==> r[k] == a + k
    ensures forall x :: x in r ==> a <= x < b
    ensures b !in r
    ensures r == [] <==> a >= b
  {
    Progression(a, b - 1, 1)
  }

  /** `a downTo b`: from `a` down to and including `b`. */
  function DownTo(a: int, b: int): (r: seq<int>)
    ensures forall k :: 0 <= k < |r| ==> r[k] == a - k
    ensures forall x :: x in r ==> b <= x <= a
    ensures r == [] <==> a < b
    ensures a >= b ==> |r| == a - b + 1 && r[|r| - 1] == b
  {
    if a >= b then
      ProgressionLastIndexDown(a, b, -1);
      Progression(a, b, -1)
    else
      Progression(a, b, -1)
  }

  /** `x in a downTo b` holds exactly when `b <= x && x <= a`. */
  lemma {:induction false} DownToMembership(a: int, b: int, x: int)
    ensures x in DownTo(a, b) <==> b <= x <= a
  {
    var r := DownTo(a, b);
    if b <= x <= a {
      assert r[a - x] == x;
    }
  }

  /** `x in lo..hi` holds exactly when `lo <= x && x <= hi`. */
  lemma {:induction false} RangeToMembership(lo: int, hi: int, x: int)
    ensures x in RangeTo(lo, hi) <==> lo <= x <= hi
  {
    var r := RangeTo(lo, hi);
    if lo <= x <= hi {
      RangeToLength(lo, hi);
      assert r[x - lo] == x;
    }
  }

  lemma {:induction false} RangeToLength(lo: int, hi: int)
    requires lo <= hi
    ensures |RangeTo(lo, hi)| == hi - lo + 1
    decreases hi - lo
  {
    if lo < hi {
      RangeToLength(lo + 1, hi);
    }
  }

  /**
   * Kotlin's `last` of the progression `start..end step step` with a positive
   * step: `end` lowered by the difference of the residues of `end` and
   * `start` modulo `step`.
   */
  function ProgressionLastElement(start: int, end: int, step: int): (r: int)
    requires step > 0
    ensures start >= end ==> r == end
    ensures start < end ==> end - step < r <= end && (r - start) % step == 0
  {
    if start >= end then end
    else
      var d := end - start;
      ResidueDifference(end, start, step);
      assert d == step * (d / step) + d % step;
      DivUnique(d - d % step, step, d / step, 0);
      end - (end % step - start % step) % step
  }

  /** The last value a loop over `start..end step step` visits is Kotlin's `last`. */
  lemma {:induction false} ProgressionLastIsLastVisited(start: int, end: int, step: int)
    requires step > 0 && start <= end
    ensures var r := Progression(start, end, step);
            r != [] && r[|r| - 1] == ProgressionLastElement(start, end, step)
  {
    var r := Progression(start, end, step);
    var n := |r| - 1;
    assert r[n] == start + n * step;
    ProgressionLastIndex(start, end, step);
    var q := (end - start) / step;
    assert n == q;
    assert end - start == q * step + (end - start) % step;
    ResidueDifference(end, start, step);
  }

  /** The loop visits exactly `(end - start) / step + 1` values. */
  lemma {:induction false} ProgressionLastIndex(start: int, end: int, step: int)
    requires step > 0 && start <= end
    ensures |Progression(start, end, step)| == (end - start) / step + 1
    decreases end - start
  {
    if start + step <= end {
      ProgressionLastIndex(start + step, end, step);
      DivSubStep(end - start, step);
    } else {
      assert 0 <= end - start < step;
    }
  }

  /** With a negative step the loop visits exactly `(start - end) / -step + 1` values. */
  lemma {:induction false} ProgressionLastIndexDown(start: int, end: int, step: int)
    requires step < 0 && start >= end
    ensures |Progression(start, end, step)| == (start - end) / (-step) + 1
    decreases start - end
  {
    if start + step >= end {
      ProgressionLastIndexDown(start + step, end, step);
      DivSubStep(start - end, -step);
    } else {
      assert 0 <= start - end < -step;
    }
  }

  /** With a negative step the last value visited is `start` lowered by whole steps to within one step of `end`. */
  lemma {:induction false} ProgressionDownLastVisited(start: int, end: int, step: int)
    requires step < 0 && start >= end
    ensures var r := Progression(start, end, step);
            r != [] && r[|r| - 1] == start + ((start - end) / (-step)) * step &&
            end <= r[|r| - 1] < end - step
  {
    ProgressionLastIndexDown(start, end, step);
    var d := start - end;
    var m := -step;
    assert d == m * (d / m) + d % m;
    assert start + (d / m) * step == end + d % m;
  }

  lemma {:induction false} DivSubStep(d: int, step: int)
    requires step > 0 && d >= step
    ensures (d - step) / step == d / step - 1
  {
    assert d == step * (d / step) + d % step;
    assert d - step == step * (d / step - 1) + d % step;
    DivUnique(d - step, step, d / step - 1, d % step);
  }

  lemma {:induction false} ResidueDifference(a: int, b: int, m: int)
    requires m > 0
    ensures (a % m - b % m) % m == (a - b) % m
  {
    assert a == m * (a / m) + a % m;
    assert b == m * (b / m) + b % m;
    var d := a % m - b % m;
    assert a - b == m * (a / m - b / m) + d;
    assert d == m * (d / m) + d % m;
    assert a - b == m * (a / m - b / m + d / m) + d % m;
    DivUnique(a - b, m, a / m - b / m + d / m, d % m);
  }

  /** Euclidean quotient and remainder are unique. */
  lemma {:induction false} DivUnique(x: int, m: int, q: int, r: int)
    requires m > 0 && 0 <= r < m && x == m * q + r
    ensures x / m == q && x % m == r
  {
    assert x == m * (x / m) + x % m;
    assert m * (q - x / m) == x % m - r;
    MultipleInRange(q - x / m, m, x % m - r);
  }

  lemma {:induction false} MultipleInRange(k: int, m: int, v: int)
    requires m > 0 && -m < v < m && m * k == v
    ensures k == 0
  {
  }

  /** The loops of `main`. */
  lemma ProgressionExamples()
    ensures 3 in RangeTo(1, 4)
    ensures RangeTo(1, 4) == [1, 2, 3, 4]
    ensures Until(1, 10) == [1, 2, 3, 4, 5, 6, 7, 8, 9] && 10 !in Until(1, 10)
    ensures Progression(1, 8, 2) == [1, 3, 5, 7]
    ensures Progression(1, 9, 3) == [1, 4, 7] && ProgressionLastElement(1, 9, 3) == 7
    ensures DownTo(4, 1) == [4, 3, 2, 1]
  {
    RangeToMembership(1, 4, 3);
    RangeToMembership(1, 9, 10);
  }
}
