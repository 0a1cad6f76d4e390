/**
 * Higher-order functions and lambdas: the hand-written `fold`, the string
 * transformation passed as a function value, the arithmetic lambdas, the
 * positive-number filters and the `html` type-safe builder.
 */
module Lambdas {
  import opened Int32
  import opened Wrappers

  // ---------------------------------------------------------------- fold

  /** The left fold: `combine` meets the elements first to last. Reference definition for `Fold`. */
  function FoldLeft<T, R>(xs: seq<T>, acc: R, combine: (R, T) -> R): R
    decreases |xs|
  {
    if xs == [] then acc else FoldLeft(xs[1..], combine(acc, xs[0]), combine)
  }

  /** Folding one more element at the end combines it into the fold of the prefix. */
  lemma {:induction false} FoldLeftSnoc<T, R>(xs: seq<T>, x: T, acc: R, combine: (R, T) -> R)
    ensures FoldLeft(xs + [x], acc, combine) == combine(FoldLeft(xs, acc, combine), x)
    decreases |xs|
  {
    if xs == [] {
      assert xs + [x] == [x];
    } else {
      assert (xs + [x])[1..] == xs[1..] + [x];
      FoldLeftSnoc(xs[1..], x, combine(acc, xs[0]), combine);
    }
  }

  /** Folding a concatenation folds the second part starting from the fold of the first. */
  lemma {:induction false} FoldLeftAppend<T, R>(xs: seq<T>, ys: seq<T>, acc: R, combine: (R, T) -> R)
    ensures FoldLeft(xs + ys, acc, combine) == FoldLeft(ys, FoldLeft(xs, acc, combine), combine)
    decreases |xs|
  {
    if xs == [] {
      assert xs + ys == ys;
    } else {
      assert (xs + ys)[0] == xs[0] && (xs + ys)[1..] == xs[1..] + ys;
      FoldLeftAppend(xs[1..], ys, combine(acc, xs[0]), combine);
    }
  }

  /** `Collection<T>.fold`: a loop over the collection that updates an accumulator. */
  method Fold<T, R>(items: seq<T>, initial: R, combine: (R, T) -> R) returns (accumulator: R)
    ensures accumulator == FoldLeft(items, initial, combine)
    ensures items == [] ==> accumulator == initial
  {
    accumulator := initial;
    for k := 0 to |items|
      invariant accumulator == FoldLeft(items[..k], initial, combine)
    {
      assert items[..k + 1] == items[..k] + [items[k]];
      FoldLeftSnoc(items[..k], items[k], initial, combine);
      accumulator := combine(accumulator, items[k]);
    }
    assert items[..|items|] == items;
  }

  const Items: seq<Int32> := [1, 2, 3, 4, 5]

  /** `items.fold(1) { acc, e -> acc * e }`. */
  method Product() returns (product: Int32)
    ensures product == 120
  {
    product := Fold(Items, 1, (acc: Int32, e: Int32) => Mul(acc, e));
  }

  // ------------------------------------------------- function-typed values

  /** `String.repeat`: `n` copies of `s`. */
  function Repeat(s: string, n: nat): (r: string)
    ensures |r| == |s| * n
    ensures n > 0 ==> r[..|s|] == s
  {
    if n == 0 then "" else s + Repeat(s, n - 1)
  }

  /** `repeatFun`: the receiver repeated `times` times; `String.repeat` throws on a negative count. */
  function RepeatFun(receiver: string, times: Int32): (r: Result<string>)
    ensures r.Ok? <==> times >= 0
    ensures r.Ok? ==> |r.value| == |receiver| * times
  {
    if times < 0 then Err("Count 'n' must be non-negative") else Ok(Repeat(receiver, times))
  }

  /** `runTransformation`: applies `f` to `"hello"` and `3`. */
  function RunTransformation(f: (string, Int32) -> Result<string>): Result<string> {
    f("hello", 3)
  }

  /** `val b = runTransformation(repeatFun)`. */
  lemma RunTransformationOfRepeatFun()
    ensures RunTransformation(RepeatFun) == Ok("hellohellohello")
  {
    assert Repeat("hello", 1) == "hello";
    assert Repeat("hello", 2) == "hellohello";
    assert Repeat("hello", 3) == "hellohellohello";
  }

  /** `sum`, `h` and `intPlus`: the addition lambdas, all `Int.plus`. */
  const SumLambda: (Int32, Int32) -> Int32 := (x: Int32, y: Int32) => Add(x, y)
  /** `a`: adds one. */
  const Increment: Int32 -> Int32 := (i: Int32) => Add(i, 1)
  /** `minus`: the receiver minus the argument. */
  const MinusLambda: (Int32, Int32) -> Int32 := (receiver: Int32, other: Int32) => Sub(receiver, other)
  /** `stringPlus`: `String.plus`, concatenation. */
  const StringPlus: (string, string) -> string := (x: string, y: string) => x + y

  /** The values printed by `main`. */
  lemma FunctionValueExamples()
    ensures StringPlus("<-", "->") == "<-->"
    ensures StringPlus("Hello, ", "world!") == "Hello, world!"
    ensures SumLambda(1, 1) == 2 && SumLambda(1, 2) == 3 && SumLambda(2, 3) == 5
    ensures Increment(1) == 2 && MinusLambda(5, 3) == 2
  {
  }

  // --------------------------------------------------------------- filter

  /** `filter`: the elements satisfying `p`, in their original order. */
  function Filter<T>(xs: seq<T>, p: T -> bool): (r: seq<T>)
    ensures |r| <= |xs|
    ensures forall k :: 0 <= k < |r| ==> r[k] in xs && p(r[k])
    ensures forall k :: 0 <= k < |xs| && p(xs[k]) ==> xs[k] in r
  {
    if xs == [] then []
    else if p(xs[0]) then [xs[0]] + Filter(xs[1..], p)
    else Filter(xs[1..], p)
  }

  /** Filtering distributes over concatenation, so the kept elements keep their order. */
  lemma {:induction false} FilterAppend<T>(xs: seq<T>, ys: seq<T>, p: T -> bool)
    ensures Filter(xs + ys, p) == Filter(xs, p) + Filter(ys, p)
  {
    if xs == [] {
      assert xs + ys == ys;
    } else {
      assert (xs + ys)[0] == xs[0] && (xs + ys)[1..] == xs[1..] + ys;
      FilterAppend(xs[1..], ys, p);
    }
  }

  const Ints: seq<Int32> := [-9, -1, 2, 3, 4, 5]

  /** `d`: `{ it > 0 }`. */
  const PositiveIt: Int32 -> bool := (it: Int32) => it > 0
  /** `e` and `f`: a block lambda that names the test before returning it (implicitly or with `return@filter`). */
  const PositiveBlock: Int32 -> bool := (it: Int32) => var shouldFilter := it > 0; shouldFilter
  /** `i`: the anonymous function `fun(item) = item > 0`. */
  const PositiveAnonymous: Int32 -> bool := (item: Int32) => item > 0

  /** A filter that every element passes keeps the list whole. */
  lemma {:induction false} FilterKeepsAll<T>(xs: seq<T>, p: T -> bool)
    requires forall k :: 0 <= k < |xs| ==> p(xs[k])
    ensures Filter(xs, p) == xs
  {
    if xs != [] {
      FilterKeepsAll(xs[1..], p);
    }
  }

  /** A filter that no element passes keeps nothing. */
  lemma {:induction false} FilterDropsAll<T>(xs: seq<T>, p: T -> bool)
    requires forall k :: 0 <= k < |xs| ==> !p(xs[k])
    ensures Filter(xs, p) == []
  {
    if xs != [] {
      FilterDropsAll(xs[1..], p);
    }
  }

  /** Filtering a run of rejected elements followed by a run of accepted ones keeps the second run. */
  lemma FilterRejectedThenAccepted<T>(rejected: seq<T>, accepted: seq<T>, p: T -> bool)
    requires forall k :: 0 <= k < |rejected| ==> !p(rejected[k])
    requires forall k :: 0 <= k < |accepted| ==> p(accepted[k])
    ensures Filter(rejected + accepted, p) == accepted
  {
    FilterAppend(rejected, accepted, p);
    FilterDropsAll(rejected, p);
    FilterKeepsAll(accepted, p);
  }

  /** Any test equivalent to `it > 0` keeps `[2, 3, 4, 5]` of `ints`. */
  lemma FilterIntsPositive(p: Int32 -> bool)
    requires forall x: Int32 :: p(x) <==> x > 0
    ensures Filter(Ints, p) == [2, 3, 4, 5]
  {
    var negatives: seq<Int32> := [-9, -1];
    var positives: seq<Int32> := [2, 3, 4, 5];
    assert !p(-9) && !p(-1) && p(2) && p(3) && p(4) && p(5);
    FilterRejectedThenAccepted(negatives, positives, p);
    assert negatives + positives == Ints;
  }

  /** The filters `d`, `e`, `f` and `i` all yield `[2, 3, 4, 5]`. */
  lemma FiltersKeepPositives()
    ensures Filter(Ints, PositiveIt) == [2, 3, 4, 5]
    ensures Filter(Ints, PositiveBlock) == [2, 3, 4, 5]
    ensures Filter(Ints, PositiveAnonymous) == [2, 3, 4, 5]
  {
    FilterIntsPositive(PositiveIt);
    FilterIntsPositive(PositiveBlock);
    FilterIntsPositive(PositiveAnonymous);
  }

  // ------------------------------------------------------- html builder

  /** The calls a builder lambda can make on its `HTML` receiver. */
  datatype HtmlCall = BodyCall

  class HTML {
    /** The builder calls made on this instance, in order. */
    ghost var calls: seq<HtmlCall>

    constructor ()
      ensures calls == []
    {
      calls := [];
    }

    method Body()
      modifies this
      ensures calls == old(calls) + [BodyCall]
    {
      calls := calls + [BodyCall];
    }
  }

  /** `html(init)`: creates the receiver, runs `init` on it, returns that same receiver. */
  method Html(init: seq<HtmlCall>) returns (html: HTML)
    ensures fresh(html)
    ensures html.calls == init
  {
    html := new HTML();
    for k := 0 to |init|
      invariant html.calls == init[..k]
    {
      match init[k]
      case BodyCall => html.Body();
    }
    assert init[..|init|] == init;
  }

  /** `htmlPage`: a builder whose lambda calls `body()` once. */
  method HtmlPage() returns (page: HTML)
    ensures fresh(page) && page.calls == [BodyCall]
  {
    page := Html([BodyCall]);
  }
}
