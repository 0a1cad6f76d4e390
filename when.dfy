/**
 * `when`: branches are tried top to bottom and the first whose condition
 * holds for the subject is the one that runs; `else` runs when none does.
 * Also the type test in `hasPrefix` and the `parseInt` branch condition.
 */
module When {
  import opened Wrappers
  import opened Int32

  /** A branch: its condition on the subject and what it prints. */
  datatype Branch = Branch(matches: int -> bool, output: string)

  /** Index of the first branch whose condition holds, or `|branches|` when there is none. */
  function FirstMatch(subject: int, branches: seq<Branch>): (r: nat)
    ensures r <= |branches|
    ensures r < |branches| ==> branches[r].matches(subject)
    ensures forall k :: 0 <= k < r ==> !branches[k].matches(subject)
  {
    if branches == [] then 0
    else if branches[0].matches(subject) then 0
    else 1 + FirstMatch(subject, branches[1..])
  }

  /** What a `when (subject) { branches…; else -> otherwise }` prints. */
  function Select(subject: int, branches: seq<Branch>, otherwise: string): (r: string)
    ensures (forall k :: 0 <= k < |branches| ==> !branches[k].matches(subject)) ==> r == otherwise
    ensures forall k :: 0 <= k < |branches| && branches[k].matches(subject) &&
                        (forall k' :: 0 <= k' < k ==> !branches[k'].matches(subject)) ==>
                        r == branches[k].output
  {
    var i := FirstMatch(subject, branches);
    if i < |branches| then branches[i].output else otherwise
  }

  const IsOne: int -> bool := x => x == 1
  const IsTwo: int -> bool := x => x == 2
  const IsZeroOrOne: int -> bool := x => x == 0 || x == 1
  const InOneToTen: int -> bool := x => 1 <= x <= 10
  const NotInTenToTwenty: int -> bool := x => !(10 <= x <= 20)

  /** `when (x) { 1 -> …; 2 -> …; else -> … }` */
  function WhenOneOrTwo(x: int): (r: string)
    ensures x == 1 ==> r == "x == 1"
    ensures x == 2 ==> r == "x == 2"
    ensures x != 1 && x != 2 ==> r == "x is neither 1 nor 2"
  {
    var branches := [Branch(IsOne, "x == 1"), Branch(IsTwo, "x == 2")];
    assert FirstMatch(x, branches) == if x == 1 then 0 else if x == 2 then 1 else 2;
        Select(x, branches, "x is neither 1 nor 2")
  }

  /** `when (x) { 0, 1 -> …; else -> … }`: a comma-separated condition matches each listed value. */
  function WhenCommaCases(x: int): (r: string)
    ensures r == "x == 0 or x == 1" <==> x == 0 || x == 1
    ensures r == "otherwise" <==> x != 0 && x != 1
  {
    Select(x, [Branch(IsZeroOrOne, "x == 0 or x == 1")], "otherwise")
  }

  /** `when (x) { in 1..10 -> …; !in 10..20 -> …; else -> … }` */
  function WhenInRange(x: int): (r: string)
    ensures 1 <= x <= 10 ==> r == "x is in the range"
    ensures (x < 1 || 20 < x) ==> r == "x is outside the range"
    ensures 10 < x <= 20 ==> r == "none of the above"
  {
    var branches := [Branch(InOneToTen, "x is in the range"), Branch(NotInTenToTwenty, "x is outside the range")];
    assert FirstMatch(x, branches) == if 1 <= x <= 10 then 0 else if !(10 <= x <= 20) then 1 else 2;
    Select(x, branches, "none of the above")
  }

  /** x = 1 meets both range conditions, and only the first branch is taken. */
  lemma FirstMatchWins()
    ensures InOneToTen(1) && NotInTenToTwenty(1)
    ensures WhenInRange(1) == "x is in the range"
  {
  }

  // Decimal text, as `Integer.parseInt` reads it and as `"$n"` writes it.

  predicate IsDigit(c: char) { '0' <= c <= '9' }

  predicate AllDigits(s: string) { forall k :: 0 <= k < |s| ==> IsDigit(s[k]) }

  function DigitValue(c: char): (r: nat)
    requires IsDigit(c)
    ensures r < 10
  {
    (c as int - '0' as int) as nat
  }

  function DigitChar(d: nat): (r: char)
    requires d < 10
    ensures IsDigit(r) && DigitValue(r) == d
  {
    ('0' as int + d) as char
  }

  /** The number a string of decimal digits denotes, most significant digit first. */
  function DigitsValue(s: string): nat
    requires AllDigits(s)
  {
    if s == [] then 0 else DigitsValue(s[..|s| - 1]) * 10 + DigitValue(s[|s| - 1])
  }

  /** The shortest decimal digits of `n`. */
  function NatString(n: nat): (r: string)
    ensures |r| >= 1 && AllDigits(r)
  {
    if n < 10 then [DigitChar(n)] else NatString(n / 10) + [DigitChar(n % 10)]
  }

  /** `"$n"`: a minus sign before negative numbers. */
  function IntString(n: int): (r: string)
    ensures |r| >= 1
    ensures n >= 0 ==> AllDigits(r)
    ensures n < 0 ==> r[0] == '-' && |r| >= 2 && AllDigits(r[1..])
  {
    if n < 0 then "-" + NatString(-n) else NatString(n)
  }

  /**
   * `Integer.parseInt(s)`: an optional sign followed by at least one decimal
   * digit, the value within the 32-bit range; anything else is `None`, where
   * Java throws `NumberFormatException`.
   */
  function ParseInt(s: string): (r: Option<Int32>)
    ensures r.Some? ==> |s| >= 1 && AllDigits(s[1..])
    ensures r.Some? ==> IsDigit(s[0]) || ((s[0] == '-' || s[0] == '+') && |s| >= 2)
    ensures r.Some? && r.value < 0 ==> s[0] == '-'
  {
    if s == [] then None
    else
      var signed := s[0] == '-' || s[0] == '+';
      var digits := if signed then s[1..] else s;
      if digits == [] || !AllDigits(digits) then None
      else
        var v: int := if s[0] == '-' then -(DigitsValue(digits) as int) else DigitsValue(digits);
        if MIN <= v <= MAX then Some(v) else None
  }

  /** Reading back the shortest digits of `n` gives `n`. */
  lemma {:induction false} NatStringValue(n: nat)
    ensures DigitsValue(NatString(n)) == n
  {
    if n >= 10 {
      NatStringValue(n / 10);
      var s := NatString(n);
      assert s[..|s| - 1] == NatString(n / 10);
    }
  }

  /** Digits alone parse to their value when it fits. */
  lemma ParseIntUnsigned(digits: string)
    requires |digits| >= 1 && AllDigits(digits) && DigitsValue(digits) <= MAX
    ensures ParseInt(digits) == Some(DigitsValue(digits))
  {
    assert IsDigit(digits[0]);
  }

  /** A minus sign before digits parses to the negated value when it fits. */
  lemma ParseIntNegative(digits: string)
    requires |digits| >= 1 && AllDigits(digits) && DigitsValue(digits) <= -MIN
    ensures ParseInt("-" + digits) == Some(-(DigitsValue(digits) as int))
  {
    var s := "-" + digits;
    assert s[0] == '-' && s[1..] == digits;
  }

  /** Round trip: `parseInt("$x") == x` for every 32-bit `x`. */
  lemma ParseIntRoundTrip(x: Int32)
    ensures ParseInt(IntString(x)) == Some(x)
  {
    if x < 0 {
      var m: nat := 0 - x as int;
      NatStringValue(m);
      ParseIntNegative(NatString(m));
    } else {
      NatStringValue(x);
      ParseIntUnsigned(NatString(x));
    }
  }

  /** Strings that are not numbers make `parseInt` throw. */
  lemma ParseIntRejects()
    ensures ParseInt("") == None
    ensures ParseInt("-") == None
    ensures ParseInt("x1") == None
  {
  }

  /**
   * `when (x) { parseInt(s) -> …; else -> … }`: the condition is evaluated,
   * so a string that is not a number makes the whole `when` throw.
   */
  function WhenParsed(x: Int32, s: string): (r: Result<string>)
    ensures r.Err? <==> ParseInt(s).None?
    ensures r == Ok("s encodes x") <==> ParseInt(s) == Some(x)
    ensures r == Ok("s does not encode x") <==> ParseInt(s).Some? && ParseInt(s) != Some(x)
    ensures r.Err? ==> r.message == "For input string: \"" + s + "\""
  {
    match ParseInt(s)
    case None => Err("For input string: \"" + s + "\"")
    case Some(parsed) =>
      var encodes: int -> bool := subject => subject == parsed;
      Ok(Select(x, [Branch(encodes, "s encodes x")], "s does not encode x"))
  }

  /** The decimal text of `x` always takes the first branch; for x = 1, `s = "1"` does. */
  lemma WhenParsedOfDecimal(x: Int32)
    ensures WhenParsed(x, IntString(x)) == Ok("s encodes x")
    ensures WhenParsed(1, "1") == Ok("s encodes x")
  {
    ParseIntRoundTrip(x);
    ParseIntRoundTrip(1);
    assert IntString(1) == "1";
  }

  /** The values `hasPrefix` may be handed: strings, and anything else. */
  datatype AnyValue = StringValue(s: string) | IntValue(i: int) | OtherValue

  /** `String.startsWith`, character by character. */
  function StartsWith(s: string, prefix: string): (r: bool)
    ensures r <==> prefix <= s
  {
    if prefix == [] then true
    else if s == [] || s[0] != prefix[0] then false
    else
      var rest := StartsWith(s[1..], prefix[1..]);
      assert prefix <= s <==> prefix[1..] <= s[1..];
      rest
  }

  /** `hasPrefix`: true exactly for strings that begin with "prefix". */
  function HasPrefix(x: AnyValue): (r: bool)
    ensures r <==> x.StringValue? && "prefix" <= x.s
  {
    match x
    case StringValue(s) => StartsWith(s, "prefix")
    case _ => false
  }

  /** `when (val n = 1) { 1 -> …; else -> "n is not 1. It it $n" }` */
  function WhenCaptured(n: int): (r: string)
    ensures n == 1 <==> r == "n is 1"
    ensures n != 1 ==> r == "n is not 1. It it " + IntString(n)
  {
    var isOne: int -> bool := subject => subject == 1;
    Select(n, [Branch(isOne, "n is 1")], "n is not 1. It it " + IntString(n))
  }

  /** The lines `main` prints for x = 1, s = "1" and n = 1. */
  lemma MainExample()
    ensures WhenOneOrTwo(1) == "x == 1"
    ensures WhenCommaCases(1) == "x == 0 or x == 1" && WhenCommaCases(0) == "x == 0 or x == 1"
    ensures WhenParsed(1, "1") == Ok("s encodes x")
    ensures WhenInRange(1) == "x is in the range"
    ensures HasPrefix(StringValue("prefixed")) && !HasPrefix(StringValue("pre")) && !HasPrefix(IntValue(1))
    ensures WhenCaptured(1) == "n is 1"
  {
    WhenParsedOfDecimal(1);
  }
}
