/**
 * The fragment of the regex crate's syntax and meaning that fs/codegen.rs relies on: alternation, concatenation, `*`,
 * non-capturing groups, `.`, negated classes and escapes. The parser refuses what lies outside the fragment, and in a
 * class everything that is not a plain member: ranges, nested classes and the set operations.
 */
module Regex {
  import opened Options

  datatype Re = Empty | Chr(c: char) | NotIn(cs: seq<char>) | Dot | Star(a: Re) | Cat(a: Re, b: Re) | Alt(a: Re, b: Re)

  const META: string := "\\.+*?()|[]{}^$"

  /** r matches the whole of s. */
  ghost predicate Matches(r: Re, s: string)
    decreases r, |s|
  {
    match r
    case Empty => |s| == 0
    case Chr(c) => s == [c]
    case NotIn(cs) => |s| == 1 && s[0] !in cs
    case Dot => |s| == 1 && s[0] != '\n'
    case Star(a) => |s| == 0 || exists k | 0 < k <= |s| :: Matches(a, s[..k]) && Matches(r, s[k..])
    case Cat(a, b) => exists k | 0 <= k <= |s| :: Matches(a, s[..k]) && Matches(b, s[k..])
    case Alt(a, b) => Matches(a, s) || Matches(b, s)
  }

  datatype Parsed<T> = Parsed(it: T, rest: string)

  predicate Begins(s: string, c: char) { |s| > 0 && s[0] == c }

  /** A branch ends at the end of the text, at `|` or at `)`. */
  predicate Ends(s: string) { |s| == 0 || s[0] == '|' || s[0] == ')' }

  function ParseAlt(s: string): (r: Option<Parsed<Re>>)
    ensures r.Some? ==> |r.value.rest| <= |s|
    decreases |s|, 2
  {
    var first := ParseCat(s);
    if first.None? || !Begins(first.value.rest, '|') then first
    else
      var others := ParseAlt(first.value.rest[1..]);
      if others.None? then None
      else Some(Parsed(Alt(first.value.it, others.value.it), others.value.rest))
  }

  function ParseCat(s: string): (r: Option<Parsed<Re>>)
    ensures r.Some? ==> |r.value.rest| <= |s|
    decreases |s|, 1
  {
    if Ends(s) then Some(Parsed(Empty, s))
    else
      var atom := ParseAtom(s);
      if atom.None? then None
      else
        var starred := Begins(atom.value.rest, '*');
        var rest := if starred then atom.value.rest[1..] else atom.value.rest;
        var others := ParseCat(rest);
        if others.None? then None
        else
          Some(Parsed(Cat(if starred then Star(atom.value.it) else atom.value.it, others.value.it), others.value.rest))
  }

  function ParseAtom(s: string): (r: Option<Parsed<Re>>)
    ensures r.Some? ==> |r.value.rest| < |s|
    decreases |s|, 0
  {
    if |s| == 0 then None
    else if s[0] == '(' then
      if |s| < 3 || s[1] != '?' || s[2] != ':' then None
      else
        var inner := ParseAlt(s[3..]);
        if inner.None? || !Begins(inner.value.rest, ')') then None
        else Some(Parsed(inner.value.it, inner.value.rest[1..]))
    else if s[0] == '[' then
      if |s| < 2 || s[1] != '^' then None
      else
        var inner := ParseClass(s[2..]);
        if inner.None? || |inner.value.it| == 0 then None
        else Some(Parsed(NotIn(inner.value.it), inner.value.rest))
    else if s[0] == '.' then Some(Parsed(Dot, s[1..]))
    else if s[0] == '\\' then
      if |s| < 2 || s[1] !in META then None else Some(Parsed(Chr(s[1]), s[2..]))
    else if s[0] in META then None
    else Some(Parsed(Chr(s[0]), s[1..]))
  }

  /** Members up to the closing bracket. A `-` is plain only just before it; `&&` and `~~` are set operations. */
  function ParseClass(s: string): (r: Option<Parsed<seq<char>>>)
    ensures r.Some? ==> |r.value.rest| < |s|
    decreases |s|
  {
    if |s| == 0 then None
    else if s[0] == ']' then Some(Parsed([], s[1..]))
    else if s[0] == '\\' then
      if |s| < 2 || s[1] !in META then None else ClassMore(s[1], ParseClass(s[2..]))
    else if s[0] in META then None
    else if s[0] == '-' && !Begins(s[1..], ']') then None
    else if (s[0] == '&' || s[0] == '~') && Begins(s[1..], s[0]) then None
    else ClassMore(s[0], ParseClass(s[1..]))
  }

  function ClassMore(c: char, p: Option<Parsed<seq<char>>>): Option<Parsed<seq<char>>> {
    if p.None? then None else Some(Parsed([c] + p.value.it, p.value.rest))
  }

  /** The whole text as a regex. */
  function Parse(s: string): Option<Re> {
    var r := ParseAlt(s);
    if r.None? || |r.value.rest| != 0 then None else Some(r.value.it)
  }

  ghost predicate OneLine(s: string) { '\n' !in s }

  lemma {:induction false} AnyLine(s: string)
    ensures Matches(Star(Dot), s) <==> OneLine(s)
    decreases |s|
  {
    if |s| != 0 {
      assert s == [s[0]] + s[1..];
      AnyLine(s[1..]);
      if OneLine(s) {
        assert s[..1] == [s[0]];
        assert Matches(Dot, s[..1]) && Matches(Star(Dot), s[1..]);
      } else {
        forall k | 0 < k <= |s| ensures !(Matches(Dot, s[..k]) && Matches(Star(Dot), s[k..])) {
          if Matches(Dot, s[..k]) { assert k == 1 && s[..k][0] == s[0]; }
        }
      }
    }
  }

  /** A one-character regex in front takes the first character. */
  ghost predicate Single(r: Re) { r.Chr? || r.NotIn? || r.Dot? }

  lemma CatSingle(a: Re, b: Re, s: string)
    requires Single(a)
    ensures Matches(Cat(a, b), s) <==> |s| > 0 && Matches(a, s[..1]) && Matches(b, s[1..])
  {
    if Matches(Cat(a, b), s) {
      var k :| 0 <= k <= |s| && Matches(a, s[..k]) && Matches(b, s[k..]);
      assert k == |s[..k]| == 1;
    }
  }

  lemma CatEmpty(a: Re, s: string)
    ensures Matches(Cat(a, Empty), s) <==> Matches(a, s)
  {
    assert s[..|s|] == s;
    assert Matches(a, s) ==> Matches(a, s[..|s|]) && Matches(Empty, s[|s|..]);
    if Matches(Cat(a, Empty), s) {
      var k :| 0 <= k <= |s| && Matches(a, s[..k]) && Matches(Empty, s[k..]);
    }
  }
}
