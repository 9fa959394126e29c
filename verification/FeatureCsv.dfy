/**
 Comma-separated feature lists: how they are split when read and how they are joined when written.
 */
module FeatureCsv {

  predicate IsWhitespace(c: char) {
    c == '\t' || c == '\n' || c == 11 as char || c == 12 as char || c == '\r' || c == ' '
  }

  function TrimLeft(s: string): string {
    if s != [] && IsWhitespace(s[0]) then TrimLeft(s[1..]) else s
  }

  function TrimRight(s: string): string {
    if s != [] && IsWhitespace(s[|s| - 1]) then TrimRight(s[..|s| - 1]) else s
  }

  function Trim(s: string): string {
    TrimRight(TrimLeft(s))
  }

  /** The pieces between the commas; always at least one. */
  function Pieces(s: string): (ps: seq<string>)
    ensures ps != []
  {
    if s == [] then [[]]
    else
      var ps := Pieces(s[1..]);
      if s[0] == ',' then [[]] + ps else [[s[0]] + ps[0]] + ps[1..]
  }

  function NonEmptyTrimmed(ps: seq<string>): set<string> {
    set i | 0 <= i < |ps| && Trim(ps[i]) != [] :: Trim(ps[i])
  }

  lemma NonEmptyTrimmedSnoc(ps: seq<string>, piece: string)
    ensures NonEmptyTrimmed(ps + [piece]) == NonEmptyTrimmed(ps) + if Trim(piece) != [] then {Trim(piece)} else {}
  {
    var more := ps + [piece];
    assert forall i :: 0 <= i < |ps| ==> more[i] == ps[i];
    assert more[|ps|] == piece;
  }

  /** What reading a switch value yields. */
  function ParseCsv(value: string): set<string> {
    NonEmptyTrimmed(Pieces(value))
  }

  /** What writing the names in some order yields. */
  function Join(names: seq<string>): string {
    if names == [] then []
    else if |names| == 1 then names[0]
    else Join(names[..|names| - 1]) + [','] + names[|names| - 1]
  }

  function Elements(names: seq<string>): set<string> {
    set i | 0 <= i < |names| :: names[i]
  }

  lemma ElementsSnoc(names: seq<string>, name: string)
    ensures Elements(names + [name]) == Elements(names) + {name}
  {
    var more := names + [name];
    assert forall i :: 0 <= i < |names| ==> more[i] == names[i];
    assert more[|names|] == name;
  }

  /** A name that reads back as itself: not empty, without commas and without outer whitespace. */
  predicate WellFormed(name: string) {
    name != [] && ',' !in name && !IsWhitespace(name[0]) && !IsWhitespace(name[|name| - 1])
  }

  lemma {:induction false} TrimLeftFacts(s: string)
    ensures TrimLeft(s) != [] ==> !IsWhitespace(TrimLeft(s)[0])
    ensures forall c :: c in TrimLeft(s) ==> c in s
    decreases |s|
  {
    if s != [] && IsWhitespace(s[0]) {
      TrimLeftFacts(s[1..]);
    }
  }

  lemma {:induction false} TrimRightFacts(s: string)
    ensures TrimRight(s) <= s
    ensures TrimRight(s) != [] ==> !IsWhitespace(TrimRight(s)[|TrimRight(s)| - 1])
    decreases |s|
  {
    if s != [] && IsWhitespace(s[|s| - 1]) {
      TrimRightFacts(s[..|s| - 1]);
    }
  }

  lemma TrimmedIsWellFormed(piece: string)
    requires ',' !in piece && Trim(piece) != []
    ensures WellFormed(Trim(piece))
  {
    var l := TrimLeft(piece);
    TrimLeftFacts(piece);
    TrimRightFacts(l);
    assert Trim(piece) == l[..|Trim(piece)|];
    assert Trim(piece)[0] == l[0];
    forall c | c in Trim(piece)
      ensures c in piece
    {
      assert c in l;
    }
  }

  lemma WellFormedTrimsToItself(name: string)
    requires WellFormed(name)
    ensures Trim(name) == name
  {
  }

  /** White space, spelled out. */
  predicate AllBlank(s: string) {
    forall c :: c in s ==> c in [' ', '\t', '\n', 11 as char, 12 as char, '\r']
  }

  lemma {:induction false} BlanksOnTheLeft(left: string, s: string)
    requires AllBlank(left)
    ensures TrimLeft(left + s) == TrimLeft(s)
    decreases |left|
  {
    if left == [] {
      assert left + s == s;
    } else {
      assert left[0] in left && (left + s)[1..] == left[1..] + s;
      assert forall c :: c in left[1..] ==> c in left;
      BlanksOnTheLeft(left[1..], s);
    }
  }

  lemma {:induction false} BlanksOnTheRight(s: string, right: string)
    requires AllBlank(right)
    ensures TrimRight(s + right) == TrimRight(s)
    decreases |right|
  {
    if right == [] {
      assert s + right == s;
    } else {
      var n := |right| - 1;
      assert right[n] in right && (s + right)[..|s| + n] == s + right[..n];
      assert forall c :: c in right[..n] ==> c in right;
      BlanksOnTheRight(s, right[..n]);
    }
  }

  /** What a name looks like that reads back as itself: not empty, no comma, no white space at its ends. */
  lemma WellFormedSpelledOut(name: string)
    ensures WellFormed(name) <==>
              && name != [] && ',' !in name
              && name[0] !in [' ', '\t', '\n', 11 as char, 12 as char, '\r']
              && name[|name| - 1] !in [' ', '\t', '\n', 11 as char, 12 as char, '\r']
  {
  }

  /** White space around a well-formed name is taken off, and nothing else is. */
  lemma {:induction false} BlanksAreTakenOff(left: string, name: string, right: string)
    requires AllBlank(left) && WellFormed(name) && AllBlank(right)
    ensures Trim(left + name + right) == name
  {
    assert left + name + right == left + (name + right);
    BlanksOnTheLeft(left, name + right);
    assert (name + right)[0] == name[0];
    BlanksOnTheRight(name, right);
  }

  /** A piece of nothing but white space reads as no name. */
  lemma {:induction false} BlanksAreNoName(blank: string)
    requires AllBlank(blank)
    ensures Trim(blank) == []
  {
    assert blank + [] == blank;
    BlanksOnTheLeft(blank, []);
  }

  lemma {:induction false} PiecesHaveNoCommas(s: string)
    ensures forall i :: 0 <= i < |Pieces(s)| ==> ',' !in Pieces(s)[i]
    decreases |s|
  {
    if s != [] {
      PiecesHaveNoCommas(s[1..]);
    }
  }

  /** Reading yields well-formed names only, whatever the value is. */
  lemma ParsedNamesAreWellFormed(value: string)
    ensures forall name :: name in ParseCsv(value) ==> WellFormed(name)
  {
    PiecesHaveNoCommas(value);
    var ps := Pieces(value);
    forall name | name in ParseCsv(value)
      ensures WellFormed(name)
    {
      var i :| 0 <= i < |ps| && Trim(ps[i]) != [] && Trim(ps[i]) == name;
      TrimmedIsWellFormed(ps[i]);
    }
  }

  lemma {:induction false} PiecesOfOne(name: string)
    requires ',' !in name
    ensures Pieces(name) == [name]
    decreases |name|
  {
    if name != [] {
      assert name == [name[0]] + name[1..];
      PiecesOfOne(name[1..]);
    }
  }

  lemma {:induction false} PiecesOfTwo(s: string, name: string)
    requires ',' !in name
    ensures Pieces(s + [','] + name) == Pieces(s) + [name]
    decreases |s|
  {
    var whole := s + [','] + name;
    if s == [] {
      assert whole == [','] + name;
      assert whole[1..] == name;
      PiecesOfOne(name);
    } else {
      assert whole[1..] == s[1..] + [','] + name;
      PiecesOfTwo(s[1..], name);
    }
  }

  lemma {:induction false} PiecesOfJoin(names: seq<string>)
    requires names != [] && (forall i :: 0 <= i < |names| ==> ',' !in names[i])
    ensures Pieces(Join(names)) == names
    decreases |names|
  {
    if |names| == 1 {
      PiecesOfOne(names[0]);
    } else {
      var n := |names| - 1;
      PiecesOfJoin(names[..n]);
      PiecesOfTwo(Join(names[..n]), names[n]);
    }
  }

  /** Writing a list of names and reading it back gives the same names, in whatever order they are
      written, exactly when all of them are well-formed. */
  lemma {:induction false} CsvRoundTrip(names: seq<string>)
    ensures ParseCsv(Join(names)) == Elements(names) <==> forall i :: 0 <= i < |names| ==> WellFormed(names[i])
  {
    if forall i :: 0 <= i < |names| ==> WellFormed(names[i]) {
      if names == [] {
        assert ParseCsv([]) == {};
      } else {
        PiecesOfJoin(names);
        forall i | 0 <= i < |names|
          ensures Trim(names[i]) == names[i]
        {
          WellFormedTrimsToItself(names[i]);
        }
        assert NonEmptyTrimmed(names) == Elements(names);
      }
    } else {
      var i :| 0 <= i < |names| && !WellFormed(names[i]);
      ParsedNamesAreWellFormed(Join(names));
      assert names[i] in Elements(names);
    }
  }

  lemma {:induction false} JoinCons(name: string, names: seq<string>)
    requires names != []
    ensures Join([name] + names) == name + [','] + Join(names)
    decreases |names|
  {
    var all, n := [name] + names, |names|;
    assert all[..n] == [name] + names[..n - 1] && all[n] == names[n - 1];
    if n == 1 {
      assert all[..1] == [name] && Join(names) == names[0];
    } else {
      JoinCons(name, names[..n - 1]);
      assert Join(all) == name + [','] + Join(names[..n - 1]) + [','] + names[n - 1];
    }
  }

  lemma {:induction false} JoinGrowsAtTheFront(c: char, names: seq<string>)
    requires names != []
    ensures Join([[c] + names[0]] + names[1..]) == [c] + Join(names)
  {
    var rest := names[1..];
    assert names == [names[0]] + rest;
    if rest != [] {
      JoinCons([c] + names[0], rest);
      JoinCons(names[0], rest);
      assert [c] + names[0] + [','] + Join(rest) == [c] + (names[0] + [','] + Join(rest));
    }
  }

  /** Joining the pieces of any text gives the text back: together with the pieces having no commas, this
      says what the pieces are. */
  lemma {:induction false} JoinOfPieces(s: string)
    ensures Join(Pieces(s)) == s
    decreases |s|
  {
    if s != [] {
      JoinOfPieces(s[1..]);
      var ps := Pieces(s[1..]);
      assert s == [s[0]] + s[1..];
      if s[0] == ',' {
        JoinCons([], ps);
      } else {
        JoinGrowsAtTheFront(s[0], ps);
      }
    }
  }

  /** Names written with a comma and white space between them read as the two names. */
  lemma {:induction false} TwoNamesAreRead(a: string, blank: string, b: string)
    requires WellFormed(a) && AllBlank(blank) && WellFormed(b)
    ensures ParseCsv(a + "," + blank + b) == {a, b}
  {
    assert a + "," + blank + b == a + "," + (blank + b);
    assert ',' !in blank + b;
    PiecesOfTwo(a, blank + b);
    PiecesOfOne(a);
    var ps := [a] + [blank + b];
    assert blank + b + [] == blank + b && [] + a + [] == a;
    BlanksAreTakenOff(blank, b, []);
    BlanksAreTakenOff([], a, []);
    assert Trim(ps[0]) == a && Trim(ps[1]) == b;
  }
}
