/**
 * Function declarations: `double`, `triple`, the vararg list builders
 * `asList` and `makeList`, and the infix `append`.
 */
module Functions {
  import opened Int32

  /** `double`: twice `x` as a Kotlin `Int`. */
  function Double(x: Int32): (r: Int32)
    ensures Congruent(r, 2 * x)
    ensures Fits(2 * x) ==> r == 2 * x
  {
    Wrap(2 * x)
  }

  /** `triple`: three times `x` as a Kotlin `Int`. */
  function Triple(x: Int32): (r: Int32)
    ensures Congruent(r, 3 * x)
    ensures Fits(3 * x) ==> r == 3 * x
  {
    Wrap(x * 3)
  }

  /** `val result = double(2)`. */
  lemma DoubleOfTwo()
    ensures Double(2) == 4
  {
  }

  /** `double` wraps: `double(Int.MAX_VALUE)` is `-2`. */
  lemma DoubleOverflows()
    ensures Double(MAX) == -2
  {
  }

  /** `asList`: copies the vararg array into a new list, one `add` per element. */
  method AsList<T>(ts: seq<T>) returns (result: seq<T>)
    ensures |result| == |ts|
    ensures forall k :: 0 <= k < |ts| ==> result[k] == ts[k]
  {
    result := [];
    for k := 0 to |ts|
      invariant result == ts[..k]
    {
      result := result + [ts[k]];
    }
  }

  /** `makeList`: the generic-function example, the same loop as `asList`. */
  method MakeList<T>(ts: seq<T>) returns (result: seq<T>)
    ensures result == ts
  {
    result := [];
    for k := 0 to |ts|
      invariant result == ts[..k]
    {
      result := result + [ts[k]];
    }
    assert ts[..|ts|] == ts;
  }

  /** `makeList` and `asList` build equal lists from every argument array. */
  method MakeListIsAsList<T>(ts: seq<T>) returns (fromAsList: seq<T>, fromMakeList: seq<T>)
    ensures fromAsList == fromMakeList
  {
    fromAsList := AsList(ts);
    fromMakeList := MakeList(ts);
  }

  /** `asList(-1, 0, *array, 4)` with `array = arrayOf(1, 2, 3)`: the spread array's elements take its place. */
  method SpreadExample() returns (myList: seq<Int32>)
    ensures myList == [-1, 0, 1, 2, 3, 4]
  {
    var numbers: seq<Int32> := [1, 2, 3];
    myList := AsList([-1, 0] + numbers + [4]);
  }

  /** `infix fun String.append`: the receiver followed by `s`. */
  function Append(receiver: string, s: string): (r: string)
    ensures |r| == |receiver| + |s|
    ensures r[..|receiver|] == receiver && r[|receiver|..] == s
  {
    receiver + s
  }

  /** `val h = "Hello" append " World"`. */
  lemma AppendExample()
    ensures Append("Hello", " World") == "Hello World"
  {
  }
}
