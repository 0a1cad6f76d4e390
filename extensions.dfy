/**
 * Extension functions: in-place `swap` on a mutable list, the `lastIndex`
 * extension property and `toString` on a nullable receiver.
 *
 * `swap` never changes the size of the list, so the mutable list is an
 * array here.
 */
module Extensions {
  import opened Int32
  import opened Wrappers

  /** The list `s` with the elements at `i` and `j` exchanged. */
  function Swapped<T>(s: seq<T>, i: nat, j: nat): (r: seq<T>)
    requires i < |s| && j < |s|
    ensures |r| == |s|
    ensures r[i] == s[j] && r[j] == s[i]
    ensures forall k :: 0 <= k < |s| && k != i && k != j ==> r[k] == s[k]
  {
    s[i := s[j]][j := s[i]]
  }

  /** Swapping an index with itself changes nothing. */
  lemma SwappedSelf<T>(s: seq<T>, i: nat)
    requires i < |s|
    ensures Swapped(s, i, i) == s
  {
  }

  /** Swapping twice restores the list. */
  lemma SwappedTwice<T>(s: seq<T>, i: nat, j: nat)
    requires i < |s| && j < |s|
    ensures Swapped(Swapped(s, i, j), i, j) == s
  {
  }

  /** The order of the two indices does not matter. */
  lemma SwappedSymmetric<T>(s: seq<T>, i: nat, j: nat)
    requires i < |s| && j < |s|
    ensures Swapped(s, i, j) == Swapped(s, j, i)
  {
  }

  /** A swap is a permutation: the same elements, as often as before. */
  lemma SwappedPermutes<T>(s: seq<T>, i: nat, j: nat)
    requires i < |s| && j < |s|
    ensures multiset(Swapped(s, i, j)) == multiset(s)
  {
    if i != j {
      var t := s[i := s[j]];
      assert multiset(t) == multiset(s) - multiset{s[i]} + multiset{s[j]};
      assert t[j] == s[j];
      assert multiset(t[j := s[i]]) == multiset(t) - multiset{s[j]} + multiset{s[i]};
    }
  }

  /**
   * `MutableList<Int>.swap`. Indexing outside the list throws before anything
   * is written; `thrown` reports that and the list is then unchanged.
   */
  method Swap(list: array<Int32>, index1: Int32, index2: Int32) returns (thrown: bool)
    modifies list
    ensures thrown <==> !(0 <= index1 < list.Length && 0 <= index2 < list.Length)
    ensures thrown ==> list[..] == old(list[..])
    ensures !thrown ==> list[..] == Swapped(old(list[..]), index1, index2)
  {
    if !(0 <= index1 < list.Length) {
      return true;
    }
    var tmp := list[index1];
    if !(0 <= index2 < list.Length) {
      return true;
    }
    list[index1] := list[index2];
    list[index2] := tmp;
    return false;
  }

  /** `MutableList<T>.swapItems`: `swap` for any element type, with the same effect. */
  method SwapItems<T>(list: array<T>, index1: Int32, index2: Int32) returns (thrown: bool)
    modifies list
    ensures thrown <==> !(0 <= index1 < list.Length && 0 <= index2 < list.Length)
    ensures thrown ==> list[..] == old(list[..])
    ensures !thrown ==> list[..] == Swapped(old(list[..]), index1, index2)
  {
    if !(0 <= index1 < list.Length) {
      return true;
    }
    var tmp := list[index1];
    if !(0 <= index2 < list.Length) {
      return true;
    }
    list[index1] := list[index2];
    list[index2] := tmp;
    return false;
  }

  /** `List<T>.lastIndex`: the index of the last element, or -1 when there is none. */
  function LastIndex<T>(list: seq<T>): (r: int)
    ensures -1 <= r < |list|
    ensures r == -1 <==> list == []
    ensures r >= 0 ==> list[r..] == [list[r]]
  {
    |list| - 1
  }

  /**
   * `Any?.toString`: `"null"` for a null receiver, otherwise the receiver's own
   * `toString`, given here as `memberToString`.
   */
  function NullableToString<T>(receiver: Option<T>, memberToString: T -> string): (r: string)
    ensures receiver.None? ==> r == "null"
    ensures receiver.Some? ==> r == memberToString(receiver.value)
  {
    match receiver
    case None => "null"
    case Some(x) => memberToString(x)
  }
}
