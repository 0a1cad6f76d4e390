/**
 * Returns and jumps: `break`, `continue`, a labelled `break`, and the
 * local and non-local returns out of a `forEach` lambda. What the code
 * prints is returned as a trace.
 */
module ReturnsAndJumps {

  /** One console write: `print("$n ")`, `print(s)`, `println(s)` or a bare `println()`. */
  datatype Out = Num(n: int) | Text(s: string) | Line(s: string) | NewLine

  /** The writes `print("$n ")` for n = lo, lo + 1, …, hi. */
  function Counting(lo: int, hi: int): (r: seq<Out>)
    ensures |r| == if hi < lo then 0 else hi - lo + 1
    ensures forall k :: 0 <= k < |r| ==> r[k] == Num(lo + k)
    decreases hi - lo
  {
    if hi < lo then [] else Counting(lo, hi - 1) + [Num(hi)]
  }

  /** The writes `print("$v ")` for each v of `values`, in order. */
  function Printed(values: seq<int>): (r: seq<Out>)
    ensures |r| == |values|
    ensures forall k :: 0 <= k < |r| ==> r[k] == Num(values[k])
  {
    if values == [] then [] else Printed(values[..|values| - 1]) + [Num(values[|values| - 1])]
  }

  /** The values that come before the first occurrence of `stop` (all of them when there is none). */
  function Before(values: seq<int>, stop: int): (r: seq<int>)
    ensures r <= values && stop !in r
    ensures |r| < |values| ==> values[|r|] == stop
  {
    if values == [] || values[0] == stop then [] else [values[0]] + Before(values[1..], stop)
  }

  /** The values other than `skip`, in their order. */
  function Except(values: seq<int>, skip: int): (r: seq<int>)
    ensures |r| <= |values| && skip !in r
    ensures forall v :: v in r <==> v in values && v != skip
  {
    if values == [] then []
    else
      var rest := Except(values[1..], skip);
      assert forall v :: v in values <==> v == values[0] || v in values[1..];
      if values[0] == skip then rest else [values[0]] + rest
  }

  /** `for (i in 1..10) { if (i > 5) break; print("$i ") }` */
  method BreakLoop() returns (out: seq<Out>)
    ensures out == Counting(1, 5)
  {
    out := [];
    var i := 1;
    while i <= 10
      invariant 1 <= i <= 6
      invariant out == Counting(1, i - 1)
    {
      if i > 5 {
        break;
      }
      out := out + [Num(i)];
      i := i + 1;
    }
  }

  /** `for (i in 1..10) { if (i == 5) { print("  "); continue }; print("$i ") }` */
  method ContinueLoop() returns (out: seq<Out>)
    ensures out == Counting(1, 4) + [Text("  ")] + Counting(6, 10)
  {
    out := [];
    var i := 1;
    while i <= 10
      invariant 1 <= i <= 11
      invariant i <= 5 ==> out == Counting(1, i - 1)
      invariant i > 5 ==> out == Counting(1, 4) + [Text("  ")] + Counting(6, i - 1)
    {
      if i == 5 {
        out := out + [Text("  ")];
        i := i + 1;
        continue;
      }
      out := out + [Num(i)];
      i := i + 1;
    }
  }

  /**
   * `loop@ for (i in 1..rows) { for (j in 1..cols) { if (j == target) break@loop } }`:
   * the labelled `break` leaves both loops; `broke` says whether it ran and
   * `i`, `j` are the counters at that moment.
   */
  method LabelledBreak(rows: int, cols: int, target: int) returns (broke: bool, i: int, j: int)
    ensures broke <==> 1 <= rows && 1 <= target <= cols
    ensures broke ==> i == 1 && j == target
  {
    broke := false;
    i := 1;
    j := 0;
    label loop: while i <= rows
      invariant 1 <= i <= if rows < 1 then 1 else rows + 1
      invariant 1 < i ==> !(1 <= target <= cols)
    {
      j := 1;
      while j <= cols
        invariant 1 <= j <= if cols < 1 then 1 else cols + 1
        invariant !(1 <= target < j)
      {
        if j == target {
          broke := true;
          break loop;
        }
        j := j + 1;
      }
      i := i + 1;
    }
  }

  /** The loops of `main` with bounds 100 and target 50 stop in the first outer round, at j == 50, printing nothing. */
  method LabelledBreakInMain() returns (i: int, j: int)
    ensures i == 1 && j == 50
  {
    var broke;
    broke, i, j := LabelledBreak(100, 100, 50);
  }

  /**
   * `values.forEach { if (it == stop) return; print("$it ") }` inside an
   * enclosing function: the `return` leaves that function, so `returned`
   * says whether the rest of it is skipped.
   */
  method ForEachNonLocalReturn(values: seq<int>, stop: int) returns (out: seq<Out>, returned: bool)
    ensures out == Printed(Before(values, stop))
    ensures returned <==> stop in values
  {
    out := [];
    returned := false;
    var k := 0;
    while k < |values|
      invariant 0 <= k <= |values|
      invariant stop !in values[..k]
      invariant values[..k] == Before(values, stop)[..k]
      invariant out == Printed(values[..k])
    {
      if values[k] == stop {
        returned := true;
        assert |Before(values, stop)| == k;
        return;
      }
      assert values[..k + 1] == values[..k] + [values[k]];
      out := out + [Num(values[k])];
      k := k + 1;
    }
    assert values[..k] == values;
  }

  /**
   * `values.forEach { if (it == skip) return@forEach; print("$it ") }`: the
   * local return ends only the current call of the lambda, like `continue`.
   */
  method ForEachLocalReturn(values: seq<int>, skip: int) returns (out: seq<Out>)
    ensures out == Printed(Except(values, skip))
  {
    out := [];
    var k := 0;
    while k < |values|
      invariant 0 <= k <= |values|
      invariant out == Printed(Except(values[..k], skip))
    {
      ExceptSnoc(values[..k], values[k], skip);
      assert values[..k + 1] == values[..k] + [values[k]];
      if values[k] != skip {
        out := out + [Num(values[k])];
      }
      k := k + 1;
    }
    assert values[..k] == values;
  }

  /** Filtering one more value either drops it or appends it. */
  lemma {:induction false} ExceptSnoc(values: seq<int>, v: int, skip: int)
    ensures Except(values + [v], skip) == Except(values, skip) + (if v == skip then [] else [v])
    decreases |values|
  {
    if values == [] {
      assert ([] + [v])[1..] == [];
    } else {
      assert (values + [v])[0] == values[0];
      assert (values + [v])[1..] == values[1..] + [v];
      ExceptSnoc(values[1..], v, skip);
    }
  }

  const OneToFive: seq<int> := [1, 2, 3, 4, 5]

  lemma OneToFiveParts()
    ensures Before(OneToFive, 3) == [1, 2]
    ensures Except(OneToFive, 3) == [1, 2, 4, 5]
    ensures Printed([1, 2]) == [Num(1), Num(2)]
    ensures Printed([1, 2, 4, 5]) == [Num(1), Num(2), Num(4), Num(5)]
  {
    assert OneToFive[1..][1..][1..] == [4, 5];
    assert OneToFive[1..][1..][1..][1..][1..] == [];
  }

  /** `foo1`: the non-local return leaves `foo1` at 3, so the closing `println` is never reached. */
  method Foo1() returns (out: seq<Out>)
    ensures out == [NewLine, Num(1), Num(2)]
  {
    OneToFiveParts();
    out := [NewLine];
    var printed, returned := ForEachNonLocalReturn(OneToFive, 3);
    out := out + printed;
    if returned {
      return;
    }
    out := out + [Line("this point is unreachable")];
  }

  /** `foo2`, `foo3` and `foo4`: the lambda or anonymous function returns locally, then the message is printed. */
  method SkipThenSay(message: string) returns (out: seq<Out>)
    ensures out == [NewLine, Num(1), Num(2), Num(4), Num(5), Text(message)]
  {
    OneToFiveParts();
    out := [NewLine];
    var printed := ForEachLocalReturn(OneToFive, 3);
    out := out + printed + [Text(message)];
  }

  /** `foo2`: `return@lit` out of a lambda with an explicit label. */
  method Foo2() returns (out: seq<Out>)
    ensures out == [NewLine, Num(1), Num(2), Num(4), Num(5), Text("done with explicit label")]
  {
    out := SkipThenSay("done with explicit label");
  }

  /** `foo3`: `return@forEach` with the implicit label. */
  method Foo3() returns (out: seq<Out>)
    ensures out == [NewLine, Num(1), Num(2), Num(4), Num(5), Text("done with implicit label")]
  {
    out := SkipThenSay("done with implicit label");
  }

  /** `foo4`: a plain `return` out of an anonymous function. */
  method Foo4() returns (out: seq<Out>)
    ensures out == [NewLine, Num(1), Num(2), Num(4), Num(5), Text("done with anonymous function")]
  {
    out := SkipThenSay("done with anonymous function");
  }

  /** `foo5`: `return@loop` leaves the enclosing `run` block, which acts as a `break`. */
  method Foo5() returns (out: seq<Out>)
    ensures out == [NewLine, Num(1), Num(2), Text("done with nested loop")]
  {
    OneToFiveParts();
    out := [NewLine];
    var printed, _ := ForEachNonLocalReturn(OneToFive, 3);
    out := out + printed + [Text("done with nested loop")];
  }

  /** Everything `main` prints, in order: the two loops, a line break between them, then `foo1` to `foo5`. */
  method MainOutput() returns (out: seq<Out>)
    ensures out == Counting(1, 5) + [NewLine] + Counting(1, 4) + [Text("  ")] + Counting(6, 10)
                   + [NewLine, Num(1), Num(2)]
                   + [NewLine, Num(1), Num(2), Num(4), Num(5), Text("done with explicit label")]
                   + [NewLine, Num(1), Num(2), Num(4), Num(5), Text("done with implicit label")]
                   + [NewLine, Num(1), Num(2), Num(4), Num(5), Text("done with anonymous function")]
                   + [NewLine, Num(1), Num(2), Text("done with nested loop")]
  {
    var first := BreakLoop();
    var second := ContinueLoop();
    var _, _ := LabelledBreakInMain();
    var o1 := Foo1();
    var o2 := Foo2();
    var o3 := Foo3();
    var o4 := Foo4();
    var o5 := Foo5();
    out := first + [NewLine] + second + o1 + o2 + o3 + o4 + o5;
  }
}
