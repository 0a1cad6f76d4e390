/**
 * Enum classes: `Direction` with its synthetic `values()` and `valueOf`,
 * `Color` with an `rgb` property, the two-state `ProtocolState` whose
 * constants override `signal()`, and `IntArithmetics`, whose constants
 * implement a binary operator.
 */
module EnumClasses {
  import opened Int32
  import opened Wrappers

  datatype Direction = NORTH | SOUTH | WEST | EAST

  /** The declaration position of each constant. */
  function Ordinal(d: Direction): (r: nat)
    ensures r < 4
  {
    match d
    case NORTH => 0
    case SOUTH => 1
    case WEST => 2
    case EAST => 3
  }

  /** The constant's name, as `Enum.name` gives it. */
  function Name(d: Direction): (r: string)
    ensures r == ["NORTH", "SOUTH", "WEST", "EAST"][Ordinal(d)]
  {
    match d
    case NORTH => "NORTH"
    case SOUTH => "SOUTH"
    case WEST => "WEST"
    case EAST => "EAST"
  }

  /** `Direction.values()`: every constant exactly once, in declaration order. */
  function Values(): (r: seq<Direction>)
    ensures |r| == 4
    ensures forall k :: 0 <= k < |r| ==> Ordinal(r[k]) == k
    ensures forall d: Direction :: r[Ordinal(d)] == d
  {
    [NORTH, SOUTH, WEST, EAST]
  }

  /** The canonical name of `Direction`, which the `valueOf` exception message quotes. */
  const QualifiedName: string := "ir.fallahpoor.kotlinsqueezed._2classesAndObjects._10enumClasses.Direction"

  /** `Direction.valueOf(name)`: the constant with that name; any other string throws. */
  function ValueOf(name: string): (r: Result<Direction>)
    ensures r.Ok? ==> Name(r.value) == name
    ensures r.Err? ==> forall d: Direction :: Name(d) != name
    ensures r.Err? ==> r.message == "No enum constant " + QualifiedName + "." + name
  {
    if name == "NORTH" then Ok(NORTH)
    else if name == "SOUTH" then Ok(SOUTH)
    else if name == "WEST" then Ok(WEST)
    else if name == "EAST" then Ok(EAST)
    else Err("No enum constant " + QualifiedName + "." + name)
  }

  /** `valueOf` inverts `name`. */
  lemma ValueOfName(d: Direction)
    ensures ValueOf(Name(d)) == Ok(d)
  {
  }

  /** `val d = Direction.valueOf("NORTH")` and `val a = Direction.values()`. */
  lemma DirectionExamples()
    ensures ValueOf("NORTH") == Ok(NORTH)
    ensures Values() == [NORTH, SOUTH, WEST, EAST]
  {
  }

  datatype Color = RED | GREEN | BLUE

  /** `Color.rgb`: each constant's 24-bit colour value. */
  function Rgb(c: Color): (r: int)
    ensures 0 <= r < 0x100_0000
  {
    match c
    case RED => 0xFF0000
    case GREEN => 0x00FF00
    case BLUE => 0x0000FF
  }

  /** Distinct colours have distinct `rgb` values. */
  lemma RgbDistinct(c: Color, other: Color)
    ensures c != other ==> Rgb(c) != Rgb(other)
  {
  }

  datatype ProtocolState = WAITING | TALKING

  /** `ProtocolState.signal()`: each state moves to the other one. */
  function Signal(s: ProtocolState): (r: ProtocolState)
    ensures r != s
  {
    match s
    case WAITING => TALKING
    case TALKING => WAITING
  }

  /** Signalling twice returns to the starting state. */
  lemma SignalInvolution(s: ProtocolState)
    ensures Signal(Signal(s)) == s
  {
  }

  datatype IntArithmetics = PLUS | TIMES

  /** `IntArithmetics.apply`: `PLUS` adds, `TIMES` multiplies, both as Kotlin `Int`s. */
  function Apply(op: IntArithmetics, t: Int32, u: Int32): (r: Int32)
    ensures op == PLUS ==> Congruent(r, t + u) && (Fits(t + u) ==> r == t + u)
    ensures op == TIMES ==> Congruent(r, t * u) && (Fits(t * u) ==> r == t * u)
  {
    match op
    case PLUS => Add(t, u)
    case TIMES => Mul(t, u)
  }
}
