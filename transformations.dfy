/**
 * Transformations: the local `parseFullName`, which splits a name on a
 * space and accepts exactly two pieces, and the `associate` call that maps
 * last names to first names.
 */
module Transformations {
  import opened Wrappers

  /** Occurrences of `c` in `s`. */
  function Count(s: string, c: char): nat {
    if s == [] then 0 else (if s[0] == c then 1 else 0) + Count(s[1..], c)
  }

  /** The pieces glued back together with `sep` between neighbours. */
  function Join(pieces: seq<string>, sep: char): string
    requires |pieces| >= 1
  {
    if |pieces| == 1 then pieces[0] else pieces[0] + [sep] + Join(pieces[1..], sep)
  }

  /**
   * `String.split(" ")` with the separator as a single character: the pieces
   * between separators, empty pieces included (so `""` gives `[""]`).
   */
  function Split(s: string, sep: char): (r: seq<string>)
    ensures |r| == Count(s, sep) + 1
    ensures forall k :: 0 <= k < |r| ==> sep !in r[k]
    ensures Join(r, sep) == s
  {
    if s == [] then [""]
    else
      var rest := Split(s[1..], sep);
      if s[0] == sep then
        [""] + rest
      else
        var r := [[s[0]] + rest[0]] + rest[1..];
        JoinCons(s[0], rest, sep);
        r
  }

  /** Putting a character in front of the first piece puts it in front of the join. */
  lemma {:induction false} JoinCons(c: char, pieces: seq<string>, sep: char)
    requires |pieces| >= 1
    ensures Join([[c] + pieces[0]] + pieces[1..], sep) == [c] + Join(pieces, sep)
  {
    var q := [[c] + pieces[0]] + pieces[1..];
    assert q[1..] == pieces[1..];
  }

  /** Splitting after a separator-free piece and a separator yields that piece first. */
  lemma {:induction false} SplitAfterPiece(p: string, sep: char, t: string)
    requires sep !in p
    ensures Split(p + [sep] + t, sep) == [p] + Split(t, sep)
    decreases |p|
  {
    if p == [] {
      assert p + [sep] + t == [sep] + t;
      assert ([sep] + t)[1..] == t;
    } else {
      var s := p + [sep] + t;
      assert s[0] == p[0] && s[1..] == p[1..] + [sep] + t;
      SplitAfterPiece(p[1..], sep, t);
      assert [p[0]] + p[1..] == p;
    }
  }

  /** A string without the separator is a single piece. */
  lemma {:induction false} SplitNoSeparator(p: string, sep: char)
    requires sep !in p
    ensures Split(p, sep) == [p]
    decreases |p|
  {
    if p != [] {
      SplitNoSeparator(p[1..], sep);
      assert [p[0]] + p[1..] == p;
    }
  }

  /** `split` inverts `joinToString`: separator-free pieces are recovered exactly. */
  lemma {:induction false} SplitJoin(pieces: seq<string>, sep: char)
    requires |pieces| >= 1
    requires forall k :: 0 <= k < |pieces| ==> sep !in pieces[k]
    ensures Split(Join(pieces, sep), sep) == pieces
    decreases |pieces|
  {
    if |pieces| == 1 {
      SplitNoSeparator(pieces[0], sep);
    } else {
      SplitJoin(pieces[1..], sep);
      SplitAfterPiece(pieces[0], sep, Join(pieces[1..], sep));
      assert [pieces[0]] + pieces[1..] == pieces;
    }
  }

  datatype FullName = FullName(firstName: string, lastName: string)

  /** `parseFullName`: exactly two space-separated pieces, else the exception `"Wrong name format"`. */
  function ParseFullName(fullName: string): (r: Result<FullName>)
    ensures r.Ok? <==> Count(fullName, ' ') == 1
    ensures r.Ok? ==> ' ' !in r.value.firstName && ' ' !in r.value.lastName &&
                      fullName == r.value.firstName + " " + r.value.lastName
    ensures r.Err? ==> r.message == "Wrong name format"
  {
    var nameParts := Split(fullName, ' ');
    if |nameParts| == 2 then
      assert nameParts[1..] == [nameParts[1]];
      assert Join(nameParts, ' ') == nameParts[0] + [' '] + nameParts[1];
      Ok(FullName(nameParts[0], nameParts[1]))
    else
      Err("Wrong name format")
  }

  /** Round trip: a first and a last name without spaces, joined by one space, parse back. */
  lemma ParseFullNameRoundTrip(first: string, last: string)
    requires ' ' !in first && ' ' !in last
    ensures ParseFullName(first + " " + last) == Ok(FullName(first, last))
  {
    assert Join([first, last], ' ') == first + " " + last by {
      assert [first, last][1..] == [last];
    }
    SplitJoin([first, last], ' ');
  }

  /** Empty pieces count: a trailing space leaves an empty last name, two spaces are an error. */
  lemma ParseFullNameEdgeCases()
    ensures ParseFullName("Alice ") == Ok(FullName("Alice", ""))
    ensures ParseFullName("a  b").Err?
    ensures ParseFullName("").Err?
    ensures ParseFullName("Alice").Err?
  {
    ParseFullNameRoundTrip("Alice", "");
    assert "Alice " == "Alice" + " " + "";
    assert Count("a  b", ' ') == 2;
  }

  /**
   * `associate { parseFullName(it).let { it.lastName to it.firstName } }`:
   * entries are added in list order, a later entry replacing an earlier one
   * with the same key; the first name that does not parse throws.
   */
  function AssociateLastToFirst(fullNames: seq<string>): (r: Result<map<string, string>>)
    ensures r.Ok? <==> forall k :: 0 <= k < |fullNames| ==> ParseFullName(fullNames[k]).Ok?
  {
    if fullNames == [] then Ok(map[])
    else
      var n := |fullNames| - 1;
      var init := fullNames[..n];
      assert forall k :: 0 <= k < n ==> init[k] == fullNames[k];
      match AssociateLastToFirst(init)
      case Err(e) => Err(e)
      case Ok(m) =>
        match ParseFullName(fullNames[n])
        case Err(e) => Err(e)
        case Ok(name) => Ok(m[name.lastName := name.firstName])
  }

  /** Every last name becomes a key, and every entry pairs a last name with its own first name. */
  lemma {:induction false} AssociateEntries(fullNames: seq<string>)
    requires AssociateLastToFirst(fullNames).Ok?
    ensures var m := AssociateLastToFirst(fullNames).value;
            (forall k :: 0 <= k < |fullNames| ==> ParseFullName(fullNames[k]).value.lastName in m) &&
            (forall key :: key in m ==>
               exists k :: 0 <= k < |fullNames| && ParseFullName(fullNames[k]).value == FullName(m[key], key))
  {
    if fullNames != [] {
      var n := |fullNames| - 1;
      var init := fullNames[..n];
      assert forall k :: 0 <= k < n ==> init[k] == fullNames[k];
      AssociateEntries(init);
      var m := AssociateLastToFirst(fullNames).value;
      var name := ParseFullName(fullNames[n]).value;
      forall key | key in m
        ensures exists k :: 0 <= k < |fullNames| && ParseFullName(fullNames[k]).value == FullName(m[key], key)
      {
        if key == name.lastName {
          assert ParseFullName(fullNames[n]).value == FullName(m[key], key);
        } else {
          var j :| 0 <= j < n && ParseFullName(init[j]).value == FullName(AssociateLastToFirst(init).value[key], key);
          assert ParseFullName(fullNames[j]).value == FullName(m[key], key);
        }
      }
    }
  }

  /** One more name: its entry is added on top of the map built so far. */
  lemma AssociateSnoc(init: seq<string>, fullName: string, m: map<string, string>, name: FullName)
    requires AssociateLastToFirst(init) == Ok(m)
    requires ParseFullName(fullName) == Ok(name)
    ensures AssociateLastToFirst(init + [fullName]) == Ok(m[name.lastName := name.firstName])
  {
    assert (init + [fullName])[..|init|] == init;
  }

  /** A full name as written in the list: first name, one space, last name. */
  function Spaced(first: string, last: string): (r: string)
    ensures |r| == |first| + 1 + |last| && r[|first|] == ' '
  {
    first + " " + last
  }

  /** Three names with distinct last names give three entries. */
  lemma {:induction false} AssociateThree(a: string, b: string, c: string, na: FullName, nb: FullName, nc: FullName)
    requires ParseFullName(a) == Ok(na) && ParseFullName(b) == Ok(nb) && ParseFullName(c) == Ok(nc)
    ensures AssociateLastToFirst([a, b, c]) ==
            Ok(map[na.lastName := na.firstName, nb.lastName := nb.firstName, nc.lastName := nc.firstName])
  {
    var m0: map<string, string> := map[];
    var m1 := m0[na.lastName := na.firstName];
    var m2 := m1[nb.lastName := nb.firstName];
    var s1 := [a];
    var s2 := s1 + [b];
    assert AssociateLastToFirst([]) == Ok(m0);
    assert [] + [a] == s1;
    AssociateSnoc([], a, m0, na);
    AssociateSnoc(s1, b, m1, nb);
    AssociateSnoc(s2, c, m2, nc);
    assert s2 + [c] == [a, b, c];
  }

  /**
   * `fullNames.associate { … }` for Alice Adams, Brian Brown and Clara Campbell.
   * The names are written `Spaced("Alice", "Adams")` rather than as the literal
   * `"Alice Adams"`; both denote the same string.
   */
  lemma AssociateExample()
    ensures AssociateLastToFirst([Spaced("Alice", "Adams"), Spaced("Brian", "Brown"), Spaced("Clara", "Campbell")]) ==
            Ok(map["Adams" := "Alice", "Brown" := "Brian", "Campbell" := "Clara"])
  {
    ParseFullNameRoundTrip("Alice", "Adams");
    ParseFullNameRoundTrip("Brian", "Brown");
    ParseFullNameRoundTrip("Clara", "Campbell");
    AssociateThree(Spaced("Alice", "Adams"), Spaced("Brian", "Brown"), Spaced("Clara", "Campbell"),
      FullName("Alice", "Adams"), FullName("Brian", "Brown"), FullName("Clara", "Campbell"));
  }
}
