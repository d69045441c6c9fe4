/**
 * The profile records decoded from the random-user service, and the full
 * name shown for a profile. The service returns men's and women's profiles
 * as two record types with the same shape; each has its own name type.
 */
module UserProfile {

  /** Where a user lives. */
  datatype Location = Location(country: string)

  /** The addresses of a user's photo in three sizes. */
  datatype Picture = Picture(thumbnail: string, medium: string, large: string)

  /** A man's name. */
  datatype MenName = MenName(title: string, first: string, last: string)
  {
    /** Title, first and last name, each separated by one space. */
    function FullName(): (r: string)
      ensures |r| == |title| + |first| + |last| + 2
      ensures r[..|title| + 1] == title + " "
      ensures r[|title| + 1..|title| + 1 + |first|] == first
      ensures r[|title| + 1 + |first|..] == " " + last
    {
      title + " " + first + " " + last
    }
  }

  /** A woman's name. */
  datatype WomenName = WomenName(title: string, first: string, last: string)
  {
    /** Title, first and last name, each separated by one space. */
    function FullName(): (r: string)
      ensures |r| == |title| + |first| + |last| + 2
      ensures r[..|title| + 1] == title + " "
      ensures r[|title| + 1..|title| + 1 + |first|] == first
      ensures r[|title| + 1 + |first|..] == " " + last
    {
      title + " " + first + " " + last
    }
  }

  /** A man's profile. */
  datatype RandomMen = RandomMen(gender: string, email: string, name: MenName, location: Location, picture: Picture)

  /** A woman's profile. */
  datatype RandomWomen = RandomWomen(gender: string, email: string, name: WomenName, location: Location, picture: Picture)

  /** The pieces joined back together, one space between each two. */
  function Join(parts: seq<string>): string
    requires |parts| >= 1
    decreases |parts|
  {
    if |parts| == 1 then parts[0] else parts[0] + " " + Join(parts[1..])
  }

  /** `s` cut at every space; consecutive spaces give empty pieces. Joining the pieces gives back `s`. */
  function Split(s: string): (parts: seq<string>)
    ensures |parts| >= 1
    ensures forall i :: 0 <= i < |parts| ==> ' ' !in parts[i]
    ensures Join(parts) == s
    decreases |s|
  {
    if s == [] then [""]
    else
      var rest := Split(s[1..]);
      if s[0] == ' ' then
        assert ([""] + rest)[1..] == rest;
        [""] + rest
      else
        var parts := [[s[0]] + rest[0]] + rest[1..];
        assert parts[1..] == rest[1..];
        assert [s[0]] + s[1..] == s;
        parts
  }

  /** A word without spaces is a single piece. */
  lemma SplitWord(w: string)
    requires ' ' !in w
    ensures Split(w) == [w]
  {
  }

  /** A leading word without spaces, then a space, is split off as the first piece. */
  lemma {:induction false} SplitLeadingWord(w: string, rest: string)
    requires ' ' !in w
    ensures Split(w + " " + rest) == [w] + Split(rest)
    decreases |w|
  {
    var s := w + " " + rest;
    if w == [] {
      assert s == " " + rest;
      assert s[1..] == rest;
    } else {
      assert s[1..] == w[1..] + " " + rest;
      SplitLeadingWord(w[1..], rest);
      assert [w[0]] + w[1..] == w;
    }
  }

  /** Names made of words without spaces: cutting the full name at spaces gives back title, first and last. */
  lemma SplitFullName(n: MenName)
    requires ' ' !in n.title && ' ' !in n.first && ' ' !in n.last
    ensures Split(n.FullName()) == [n.title, n.first, n.last]
  {
    assert n.FullName() == n.title + " " + (n.first + " " + n.last);
    SplitLeadingWord(n.title, n.first + " " + n.last);
    SplitLeadingWord(n.first, n.last);
    SplitWord(n.last);
  }

  /** Names made of words without spaces are told apart by their full names. */
  lemma FullNameInjective(a: MenName, b: MenName)
    requires ' ' !in a.title && ' ' !in a.first && ' ' !in a.last
    requires ' ' !in b.title && ' ' !in b.first && ' ' !in b.last
    ensures a.FullName() == b.FullName() <==> a == b
  {
    SplitFullName(a);
    SplitFullName(b);
  }

  /** A man's and a woman's name with the same parts have the same full name. */
  lemma SameFormula(m: MenName, w: WomenName)
    requires m.title == w.title && m.first == w.first && m.last == w.last
    ensures m.FullName() == w.FullName()
  {
  }
}
