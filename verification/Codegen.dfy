/**
 * The regexes that fs/codegen.rs gives to bindgen: an escaped literal path, and not_prefixed, which spells out
 * "starts with none of these" a character at a time.
 */
module Codegen {
  import opened Regex
  import opened Options

  function EscapeChar(c: char): string { if c in META then ['\\', c] else [c] }

  function Escape(s: string): string { if |s| == 0 then "" else EscapeChar(s[0]) + Escape(s[1..]) }

  lemma {:induction false} EscapeMore(s: string, c: char)
    ensures Escape(s + [c]) == Escape(s) + EscapeChar(c)
    decreases |s|
  {
    if |s| == 0 { assert s + [c] == [c] && [c][1..] == ""; } else {
      assert (s + [c])[1..] == s[1..] + [c];
      EscapeMore(s[1..], c);
    }
  }

  method RegexEscape(s: string) returns (out: string)
    ensures out == Escape(s)
  {
    out := "";
    for i := 0 to |s|
      invariant out == Escape(s[..i])
    {
      if s[i] in META { out := out + ['\\']; }
      out := out + [s[i]];
      assert s[..i + 1] == s[..i] + [s[i]];
      EscapeMore(s[..i], s[i]);
    }
    assert s[..|s|] == s;
  }

  // The characters the prefixes go on with, in order and once each.

  ghost predicate Rising(cs: seq<char>) { forall i, j | 0 <= i < j < |cs| :: cs[i] < cs[j] }

  function Insert(c: char, cs: seq<char>): seq<char> {
    if |cs| == 0 || c < cs[0] then [c] + cs else if c == cs[0] then cs else [cs[0]] + Insert(c, cs[1..])
  }

  /** First characters of the prefixes that have one, sorted and deduplicated. */
  function Firsts(ps: seq<string>): seq<char> {
    if |ps| == 0 then [] else if |ps[0]| == 0 then Firsts(ps[1..]) else Insert(ps[0][0], Firsts(ps[1..]))
  }

  /** What is left, after c, of the prefixes that begin with c. */
  function Strip(ps: seq<string>, c: char): seq<string> {
    if |ps| == 0 then [] else (if Begins(ps[0], c) then [ps[0][1..]] else []) + Strip(ps[1..], c)
  }

  function Total(ps: seq<string>): nat { if |ps| == 0 then 0 else |ps[0]| + Total(ps[1..]) }

  lemma Below(c: char, cs: seq<char>)
    requires Rising(cs) && forall x | x in cs :: c < x
    ensures Rising([c] + cs) && forall x :: x in [c] + cs <==> x == c || x in cs
  {
    assert forall i | 0 <= i < |cs| :: cs[i] in cs;
  }

  lemma Above(cs: seq<char>)
    requires Rising(cs) && |cs| > 0
    ensures Rising(cs[1..]) && forall x :: x in cs[1..] <==> x in cs && x != cs[0]
    ensures forall x | x in cs[1..] :: cs[0] < x
  {
    assert cs == [cs[0]] + cs[1..];
  }

  lemma {:induction false} InsertIs(c: char, cs: seq<char>)
    requires Rising(cs)
    ensures Rising(Insert(c, cs)) && forall x :: x in Insert(c, cs) <==> x == c || x in cs
    decreases |cs|
  {
    hide Rising;
    if |cs| == 0 { Below(c, cs); } else {
      Above(cs);
      if c < cs[0] { Below(c, cs); } else if c != cs[0] {
        InsertIs(c, cs[1..]);
        Below(cs[0], Insert(c, cs[1..]));
      }
    }
  }

  /** c begins some prefix. */
  predicate Goes(ps: seq<string>, c: char) { exists p | p in ps :: Begins(p, c) }

  lemma {:induction false} FirstsAre(ps: seq<string>)
    ensures Rising(Firsts(ps)) && forall c :: c in Firsts(ps) <==> Goes(ps, c)
    decreases |ps|
  {
    if |ps| != 0 {
      FirstsAre(ps[1..]);
      assert ps == [ps[0]] + ps[1..];
      if |ps[0]| > 0 { InsertIs(ps[0][0], Firsts(ps[1..])); }
      forall c ensures Goes(ps, c) <==> Begins(ps[0], c) || Goes(ps[1..], c) {
        if Goes(ps, c) {
          var p :| p in ps && Begins(p, c);
          assert p == ps[0] || p in ps[1..];
        }
      }
    }
  }

  lemma {:induction false} StripIs(ps: seq<string>, c: char)
    ensures forall q :: q in Strip(ps, c) <==> [c] + q in ps
    ensures Total(Strip(ps, c)) <= Total(ps)
    ensures Goes(ps, c) ==> Total(Strip(ps, c)) < Total(ps)
    decreases |ps|
  {
    if |ps| != 0 {
      StripIs(ps[1..], c);
      assert ps == [ps[0]] + ps[1..];
      var rest := Strip(ps[1..], c);
      if Begins(ps[0], c) {
        assert [c] + ps[0][1..] == ps[0];
        assert ([ps[0][1..]] + rest)[1..] == rest;
        assert forall q :: [c] + q == ps[0] ==> q == ([c] + q)[1..];
      } else {
        assert [] + rest == rest;
        assert forall q: string :: Begins([c] + q, c);
        if Goes(ps, c) {
          var p :| p in ps && Begins(p, c);
          assert p in ps[1..];
        }
      }
    }
  }

  // The text that not_prefixed returns.

  function Plain(cs: seq<char>): string {
    if |cs| == 0 then "" else (if cs[0] == '-' then "" else EscapeChar(cs[0])) + Plain(cs[1..])
  }

  /** The class lists the characters escaped, with `-` last. */
  function ClassText(cs: seq<char>): string { Plain(cs) + if '-' in cs then "-" else "" }

  /** The characters to descend into: those that complete no prefix. */
  function Kept(ps: seq<string>, cs: seq<char>): (r: seq<char>)
    ensures forall c :: c in r <==> c in cs && "" !in Strip(ps, c)
  {
    if |cs| == 0 then []
    else
      var rest := Kept(ps, cs[1..]);
      assert cs == [cs[0]] + cs[1..];
      if "" in Strip(ps, cs[0]) then rest else [cs[0]] + rest
  }

  function Text(ps: seq<string>): string
    decreases Total(ps), 1, 0
  {
    FirstsAre(ps);
    "(?:" + Joined(ps, "[^" + ClassText(Firsts(ps)) + "].*", Kept(ps, Firsts(ps))) + ")"
  }

  function Joined(ps: seq<string>, text: string, cs: seq<char>): string
    requires forall c | c in cs :: Goes(ps, c)
    decreases Total(ps), 0, |cs|
  {
    if |cs| == 0 then text
    else
      StripIs(ps, cs[0]);
      text + ("|" + Joined(ps, EscapeChar(cs[0]) + Text(Strip(ps, cs[0])), cs[1..]))
  }

  // The regex that text stands for.

  function Members(cs: seq<char>): seq<char> { Without(cs) + if '-' in cs then ['-'] else [] }

  function Without(cs: seq<char>): seq<char> {
    if |cs| == 0 then [] else (if cs[0] == '-' then [] else [cs[0]]) + Without(cs[1..])
  }

  function Tree(ps: seq<string>): Re
    decreases Total(ps), 1, 0
  {
    FirstsAre(ps);
    Branches(ps, Cat(NotIn(Members(Firsts(ps))), Cat(Star(Dot), Empty)), Kept(ps, Firsts(ps)))
  }

  function Branches(ps: seq<string>, r: Re, cs: seq<char>): Re
    requires forall c | c in cs :: Goes(ps, c)
    decreases Total(ps), 0, |cs|
  {
    if |cs| == 0 then r
    else
      StripIs(ps, cs[0]);
      Alt(r, Branches(ps, Cat(Chr(cs[0]), Cat(Tree(Strip(ps, cs[0])), Empty)), cs[1..]))
  }

  // Parsing the text gives that regex.

  lemma EscapeParses(c: char, tail: string)
    ensures ParseAtom(EscapeChar(c) + tail) == Some(Parsed(Chr(c), tail))
    ensures !Ends(EscapeChar(c) + tail)
  {
    assert (EscapeChar(c) + tail)[|EscapeChar(c)|..] == tail;
  }

  /** One member of a class, given that what follows does not make `&&` or `~~` of it. */
  lemma MemberParses(c: char, tail: string)
    requires c == '-' ==> Begins(tail, ']')
    requires c == '&' || c == '~' ==> !Begins(tail, c)
    ensures ParseClass(EscapeChar(c) + tail) == ClassMore(c, ParseClass(tail))
  {
    assert (EscapeChar(c) + tail)[|EscapeChar(c)|..] == tail;
  }

  function Prepend(cs: seq<char>, p: Option<Parsed<seq<char>>>): Option<Parsed<seq<char>>> {
    if p.None? then None else Some(Parsed(cs + p.value.it, p.value.rest))
  }

  lemma PrependMore(c: char, cs: seq<char>, p: Option<Parsed<seq<char>>>)
    ensures ClassMore(c, Prepend(cs, p)) == Prepend([c] + cs, p) && Prepend([], p) == p
  {
    assert p.Some? ==> [c] + (cs + p.value.it) == [c] + cs + p.value.it && [] + p.value.it == p.value.it;
  }

  lemma {:induction false} PlainParses(cs: seq<char>, tail: string)
    requires Rising(cs) && |tail| > 0 && tail[0] != '&' && tail[0] != '~'
    ensures ParseClass(Plain(cs) + tail) == Prepend(Without(cs), ParseClass(tail))
    decreases |cs|
  {
    hide ParseClass, Rising, EscapeChar, Prepend, ClassMore, Plain, Without;
    if |cs| == 0 {
      assert Plain(cs) + tail == tail && Without(cs) == [] by { PlainNone(tail); }
      PrependMore('-', [], ParseClass(tail));
    } else {
      var c, rest := cs[0], Plain(cs[1..]) + tail;
      Above(cs);
      PlainParses(cs[1..], tail);
      PlainFirst(cs);
      if c != '-' {
        assert EscapeChar(c) + Plain(cs[1..]) + tail == EscapeChar(c) + rest;
        if c == '&' || c == '~' { PlainBegins(cs[1..], tail, c); }
        MemberParses(c, rest);
        PrependMore(c, Without(cs[1..]), ParseClass(tail));
      }
    }
  }

  lemma PlainNone(tail: string)
    ensures Plain([]) + tail == tail && Without([]) == []
  {}

  lemma PlainFirst(cs: seq<char>)
    requires |cs| > 0
    ensures cs[0] == '-' ==> Plain(cs) == Plain(cs[1..]) && Without(cs) == Without(cs[1..])
    ensures cs[0] != '-' ==> Plain(cs) == EscapeChar(cs[0]) + Plain(cs[1..]) && Without(cs) == [cs[0]] + Without(cs[1..])
  {
    hide EscapeChar;
    assert "" + Plain(cs[1..]) == Plain(cs[1..]) && [] + Without(cs[1..]) == Without(cs[1..]);
  }

  /** A character of the class is followed by a later one, by `-` or by the bracket, never by itself. */
  lemma {:induction false} PlainBegins(cs: seq<char>, tail: string, c: char)
    requires |tail| > 0 && tail[0] != '&' && tail[0] != '~' && c !in cs && (c == '&' || c == '~')
    ensures !Begins(Plain(cs) + tail, c)
    decreases |cs|
  {
    if |cs| > 0 {
      if cs[0] == '-' { PlainBegins(cs[1..], tail, c); assert Plain(cs) == Plain(cs[1..]); }
    }
  }

  lemma CloseParses(tail: string)
    ensures ParseClass("]" + tail) == Some(Parsed([], tail))
    ensures ParseClass("-" + ("]" + tail)) == Some(Parsed(['-'], tail))
  {
    assert ("]" + tail)[1..] == tail;
    MemberParses('-', "]" + tail);
    assert EscapeChar('-') == "-" && ['-'] + [] == ['-'];
  }

  lemma ClassParses(cs: seq<char>, tail: string)
    requires Rising(cs)
    ensures ParseClass(ClassText(cs) + ("]" + tail)) == Some(Parsed(Members(cs), tail))
  {
    hide ParseClass, Rising, Plain, Without;
    var close := "]" + tail;
    CloseParses(tail);
    if '-' in cs {
      PlainParses(cs, "-" + close);
      assert ClassText(cs) + close == Plain(cs) + ("-" + close);
    } else {
      PlainParses(cs, close);
      assert ClassText(cs) + close == Plain(cs) + close;
    }
  }

  /** text is a branch that stands for r, whatever ends it. */
  ghost predicate CatIs(text: string, r: Re) {
    forall rest: string | Ends(rest) :: ParseCat(text + rest) == Some(Parsed(r, rest))
  }

  /** text is an atom that stands for r, whatever comes after it. */
  ghost predicate AtomIs(text: string, r: Re) {
    && Begins(text, '(')
    && forall rest: string :: ParseAtom(text + rest) == Some(Parsed(r, rest))
  }

  lemma NotInParses(cs: seq<char>, tail: string)
    requires Rising(cs) && |cs| > 0
    ensures ParseAtom("[^" + ClassText(cs) + "]" + tail) == Some(Parsed(NotIn(Members(cs)), tail))
  {
    hide ParseClass, Rising, Plain, Without, ClassText;
    ClassParses(cs, tail);
    MembersAre(cs);
    assert cs[0] in Members(cs);
    var s := "[^" + ClassText(cs) + "]" + tail;
    assert s[2..] == ClassText(cs) + ("]" + tail);
  }

  lemma {:induction false} WithoutIs(cs: seq<char>)
    ensures forall c :: c in Without(cs) <==> c in cs && c != '-'
    decreases |cs|
  {
    if |cs| > 0 {
      assert cs == [cs[0]] + cs[1..];
      WithoutIs(cs[1..]);
    }
  }

  lemma MembersAre(cs: seq<char>)
    ensures forall c :: c in Members(cs) <==> c in cs
  {
    WithoutIs(cs);
  }

  lemma DotStarParses(rest: string)
    requires Ends(rest)
    ensures ParseCat(".*" + rest) == Some(Parsed(Cat(Star(Dot), Empty), rest))
  {
    var s := ".*" + rest;
    assert ParseAtom(s) == Some(Parsed(Dot, s[1..]));
    assert s[1..][1..] == rest;
    assert ParseCat(rest) == Some(Parsed(Empty, rest));
  }

  lemma FirstIs(cs: seq<char>)
    requires Rising(cs) && |cs| > 0
    ensures CatIs("[^" + ClassText(cs) + "].*", Cat(NotIn(Members(cs)), Cat(Star(Dot), Empty)))
  {
    hide Rising, ClassText, Members, ParseClass, ParseAtom;
    var text := "[^" + ClassText(cs) + "].*";
    forall rest: string | Ends(rest)
      ensures ParseCat(text + rest) == Some(Parsed(Cat(NotIn(Members(cs)), Cat(Star(Dot), Empty)), rest))
    {
      NotInParses(cs, ".*" + rest);
      DotStarParses(rest);
      assert text + rest == "[^" + ClassText(cs) + "]" + (".*" + rest);
    }
  }

  lemma GroupCat(text: string, r: Re)
    requires AtomIs(text, r)
    ensures CatIs(text, Cat(r, Empty))
  {
    hide ParseAtom;
    forall rest: string | Ends(rest) ensures ParseCat(text + rest) == Some(Parsed(Cat(r, Empty), rest)) {
      assert ParseCat(rest) == Some(Parsed(Empty, rest));
    }
  }

  lemma BranchIs(c: char, text: string, r: Re)
    requires AtomIs(text, r)
    ensures CatIs(EscapeChar(c) + text, Cat(Chr(c), Cat(r, Empty)))
  {
    hide ParseAtom, EscapeChar;
    GroupCat(text, r);
    forall rest: string | Ends(rest)
      ensures ParseCat(EscapeChar(c) + text + rest) == Some(Parsed(Cat(Chr(c), Cat(r, Empty)), rest))
    {
      EscapeParses(c, text + rest);
      assert EscapeChar(c) + text + rest == EscapeChar(c) + (text + rest);
    }
  }

  lemma AltLast(text: string, r: Re, tail: string)
    requires CatIs(text, r) && Begins(tail, ')')
    ensures ParseAlt(text + tail) == Some(Parsed(r, tail))
  {
    hide ParseCat;
    assert ParseCat(text + tail) == Some(Parsed(r, tail));
  }

  lemma AltMore(text: string, r: Re, others: string, q: Re, tail: string)
    requires CatIs(text, r) && ParseAlt(others) == Some(Parsed(q, tail))
    ensures ParseAlt(text + ("|" + others)) == Some(Parsed(Alt(r, q), tail))
  {
    hide ParseCat;
    assert ParseCat(text + ("|" + others)) == Some(Parsed(r, "|" + others));
    assert ("|" + others)[1..] == others;
  }

  lemma {:induction false} JoinedParses(ps: seq<string>, text: string, r: Re, cs: seq<char>, tail: string)
    requires (forall c | c in cs :: Goes(ps, c) && "" !in Strip(ps, c)) && CatIs(text, r) && Begins(tail, ')')
    ensures ParseAlt(Joined(ps, text, cs) + tail) == Some(Parsed(Branches(ps, r, cs), tail))
    decreases Total(ps), 0, |cs|
  {
    hide CatIs, AtomIs, ParseAlt, EscapeChar, Strip, Total, Goes, Text, Tree;
    if |cs| == 0 {
      AltLast(text, r, tail);
    } else {
      var c, q := cs[0], Strip(ps, cs[0]);
      StripIs(ps, c);
      StripGoes(ps, c);
      TextParses(q);
      BranchIs(c, Text(q), Tree(q));
      JoinedParses(ps, EscapeChar(c) + Text(q), Cat(Chr(c), Cat(Tree(q), Empty)), cs[1..], tail);
      var others := Joined(ps, EscapeChar(c) + Text(q), cs[1..]);
      AltMore(text, r, others + tail, Branches(ps, Cat(Chr(c), Cat(Tree(q), Empty)), cs[1..]), tail);
      assert Joined(ps, text, cs) + tail == text + ("|" + (others + tail));
    }
  }

  lemma GroupParses(inner: string, r: Re, rest: string)
    requires ParseAlt(inner + (")" + rest)) == Some(Parsed(r, ")" + rest))
    ensures ParseAtom("(?:" + inner + ")" + rest) == Some(Parsed(r, rest))
  {
    hide ParseAlt;
    assert ("(?:" + inner + ")" + rest)[3..] == inner + (")" + rest);
    assert (")" + rest)[1..] == rest;
  }

  lemma StripGoes(ps: seq<string>, c: char)
    requires Goes(ps, c) && "" !in Strip(ps, c)
    ensures |Firsts(Strip(ps, c))| > 0
  {
    hide Strip, Firsts;
    StripIs(ps, c);
    FirstsAre(Strip(ps, c));
    var p :| p in ps && Begins(p, c);
    assert p == [c] + p[1..];
    assert p[1..] in Strip(ps, c) && Begins(p[1..], p[1..][0]);
    assert Goes(Strip(ps, c), p[1..][0]);
  }

  /** Where some prefix is not empty the text parses, as an atom, to the tree of its branches. */
  lemma {:induction false} TextParses(ps: seq<string>)
    requires |Firsts(ps)| > 0
    ensures AtomIs(Text(ps), Tree(ps))
    decreases Total(ps), 1, 0
  {
    hide CatIs, ParseAtom, ParseAlt, ClassText, Members, Firsts, Kept, Joined, Branches, Goes, Strip, Total, Rising;
    FirstsAre(ps);
    var cs := Firsts(ps);
    FirstIs(cs);
    var first, r := "[^" + ClassText(cs) + "].*", Cat(NotIn(Members(cs)), Cat(Star(Dot), Empty));
    forall rest: string ensures ParseAtom(Text(ps) + rest) == Some(Parsed(Tree(ps), rest)) {
      JoinedParses(ps, first, r, Kept(ps, cs), ")" + rest);
      GroupParses(Joined(ps, first, Kept(ps, cs)), Tree(ps), rest);
    }
  }

  // What the regex matches.

  /** s and p agree up to the end of the shorter one. */
  predicate Along(p: string, s: string) { p <= s || s <= p }

  /** s leaves every prefix that is not empty: none of them starts s, and s starts none of them. */
  ghost predicate Leaves(ps: seq<string>, s: string) { |s| > 0 && forall p | p in ps && |p| > 0 :: !Along(p, s) }

  /** t starts a prefix that is not empty. */
  ghost predicate Reached(ps: seq<string>, t: string) { exists p | p in ps :: |p| > 0 && t <= p }

  /** After the character with which s leaves the prefixes there is no newline, which `.` does not match. */
  ghost predicate Tidy(ps: seq<string>, s: string) { forall i | 0 <= i < |s| && s[i] == '\n' :: Reached(ps, s[..i]) }

  lemma TidyLine(ps: seq<string>, s: string)
    requires OneLine(s)
    ensures Tidy(ps, s)
  {}

  lemma ReachedTail(ps: seq<string>, s: string, i: nat)
    requires 0 < i <= |s| && "" !in Strip(ps, s[0])
    ensures Reached(ps, s[..i]) <==> Reached(Strip(ps, s[0]), s[1..][..i - 1])
  {
    hide Strip;
    var c, q, t, u := s[0], Strip(ps, s[0]), s[..i], s[1..][..i - 1];
    StripIs(ps, c);
    assert t == [c] + u;
    if Reached(ps, t) {
      var p :| p in ps && |p| > 0 && t <= p;
      assert p == [c] + p[1..] && p[1..] in q && u <= p[1..];
    }
    if Reached(q, u) {
      var p :| p in q && |p| > 0 && u <= p;
      assert [c] + p in ps && t <= [c] + p;
    }
  }

  lemma UnreachedTail(ps: seq<string>, s: string, i: nat)
    requires 0 < i <= |s| && !Goes(ps, s[0])
    ensures !Reached(ps, s[..i])
  {
    assert s[..i][0] == s[0];
    forall p | p in ps && |p| > 0 ensures p[0] != s[0] { assert p[0] == s[0] <==> Begins(p, s[0]); }
  }

  lemma TidyTail(ps: seq<string>, s: string)
    requires |s| > 0 && (exists p | p in ps :: |p| > 0)
    ensures !Goes(ps, s[0]) ==> (Tidy(ps, s) <==> OneLine(s[1..]))
    ensures "" !in Strip(ps, s[0]) && Goes(ps, s[0]) ==> (Tidy(ps, s) <==> Tidy(Strip(ps, s[0]), s[1..]))
  {
    hide Strip, Reached;
    var q := Strip(ps, s[0]);
    ReachedNone(ps);
    assert s[..0] == "";
    if !Goes(ps, s[0]) {
      forall i | 0 < i < |s| ensures !Reached(ps, s[..i]) { UnreachedTail(ps, s, i); }
      assert forall j | 0 <= j < |s[1..]| :: s[1..][j] == s[j + 1];
    } else if "" !in q {
      forall i | 0 < i < |s| ensures Reached(ps, s[..i]) <==> Reached(q, s[1..][..i - 1]) { ReachedTail(ps, s, i); }
      if Tidy(ps, s) {
        forall j | 0 <= j < |s[1..]| && s[1..][j] == '\n' ensures Reached(q, s[1..][..j]) { assert s[j + 1] == '\n'; }
      }
      if Tidy(q, s[1..]) {
        forall i | 0 <= i < |s| && s[i] == '\n' ensures Reached(ps, s[..i]) {
          if i > 0 { assert s[1..][i - 1] == '\n'; }
        }
      }
    }
  }

  lemma ReachedNone(ps: seq<string>)
    requires exists p | p in ps :: |p| > 0
    ensures Reached(ps, "")
  {
    var p :| p in ps && |p| > 0;
    assert "" <= p;
  }

  lemma FirstMatches(cs: seq<char>, s: string)
    ensures Matches(Cat(NotIn(Members(cs)), Cat(Star(Dot), Empty)), s) <==> |s| > 0 && s[0] !in cs && OneLine(s[1..])
  {
    hide Matches, Members;
    CatSingle(NotIn(Members(cs)), Cat(Star(Dot), Empty), s);
    MembersAre(cs);
    if |s| > 0 {
      CatEmpty(Star(Dot), s[1..]);
      AnyLine(s[1..]);
      assert Matches(NotIn(Members(cs)), s[..1]) <==> s[..1][0] !in Members(cs) by { SingleNotIn(Members(cs), s[..1]); }
    }
  }

  lemma SingleNotIn(cs: seq<char>, s: string)
    requires |s| == 1
    ensures Matches(NotIn(cs), s) <==> s[0] !in cs
  {}

  lemma StepMatches(c: char, r: Re, s: string)
    ensures Matches(Cat(Chr(c), Cat(r, Empty)), s) <==> Begins(s, c) && Matches(r, s[1..])
  {
    CatSingle(Chr(c), Cat(r, Empty), s);
    if |s| > 0 { CatEmpty(r, s[1..]); }
  }

  /** The alternatives after the first: one for each character kept. */
  ghost predicate Descends(ps: seq<string>, cs: seq<char>, s: string) {
    |s| > 0 && s[0] in cs && Matches(Tree(Strip(ps, s[0])), s[1..])
  }

  lemma {:induction false} BranchesMatch(ps: seq<string>, r: Re, cs: seq<char>, s: string)
    requires forall c | c in cs :: Goes(ps, c)
    ensures Matches(Branches(ps, r, cs), s) <==> Matches(r, s) || Descends(ps, cs, s)
    decreases |cs|
  {
    hide Tree, Strip, Total;
    if |cs| > 0 {
      var c := cs[0];
      var next := Cat(Chr(c), Cat(Tree(Strip(ps, c)), Empty));
      assert cs == [c] + cs[1..];
      BranchesMatch(ps, next, cs[1..], s);
      StepMatches(c, Tree(Strip(ps, c)), s);
    }
  }

  lemma AlongTail(p: string, s: string)
    requires |p| > 0 && |s| > 0
    ensures Along(p, s) <==> p[0] == s[0] && Along(p[1..], s[1..])
  {
    assert p == [p[0]] + p[1..] && s == [s[0]] + s[1..];
  }

  lemma LeavesTail(ps: seq<string>, s: string)
    requires |s| > 0
    ensures Leaves(ps, s) <==>
      (Goes(ps, s[0]) ==> "" !in Strip(ps, s[0]) && Leaves(Strip(ps, s[0]), s[1..]))
  {
    hide Strip;
    var c, q := s[0], Strip(ps, s[0]);
    StripIs(ps, c);
    if Leaves(ps, s) {
      forall p | p in q ensures !Along(p, s[1..]) {
        AlongTail([c] + p, s);
        assert ([c] + p)[1..] == p;
      }
      if Goes(ps, c) {
        var p :| p in ps && Begins(p, c);
        assert p == [c] + p[1..];
      }
    } else {
      var p :| p in ps && |p| > 0 && Along(p, s);
      AlongTail(p, s);
      assert p == [c] + p[1..] && p[1..] in q;
    }
  }

  lemma LeavesSome(ps: seq<string>, s: string)
    ensures Leaves(ps, s) ==> |s| > 0
  {}

  /** The tree matches exactly what leaves every prefix and has no newline after that. */
  lemma {:induction false} TreeMatches(ps: seq<string>, s: string)
    requires exists p | p in ps :: |p| > 0
    ensures Matches(Tree(ps), s) <==> Leaves(ps, s) && Tidy(ps, s)
    decreases |s|
  {
    hide Strip, Firsts, Kept, Members, Leaves, Total, Tidy;
    FirstsAre(ps);
    var cs := Firsts(ps);
    FirstMatches(cs, s);
    BranchesMatch(ps, Cat(NotIn(Members(cs)), Cat(Star(Dot), Empty)), Kept(ps, cs), s);
    if |s| > 0 {
      LeavesTail(ps, s);
      TidyTail(ps, s);
      if Goes(ps, s[0]) && "" !in Strip(ps, s[0]) {
        StripSome(ps, s[0]);
        TreeMatches(Strip(ps, s[0]), s[1..]);
      }
    } else {
      LeavesSome(ps, s);
    }
  }

  lemma StripSome(ps: seq<string>, c: char)
    requires Goes(ps, c) && "" !in Strip(ps, c)
    ensures exists p | p in Strip(ps, c) :: |p| > 0
  {
    hide Strip;
    StripIs(ps, c);
    var p :| p in ps && Begins(p, c);
    assert p == [c] + p[1..] && p[1..] in Strip(ps, c);
  }

  lemma BranchParses(text: string, r: Re)
    requires CatIs(text, r)
    ensures Parse(text) == Some(r)
  {
    hide ParseCat;
    assert text + "" == text;
    assert ParseCat(text + "") == Some(Parsed(r, ""));
  }

  /**
   * The text built from a list with a prefix that is not empty is a regex, and matches exactly the strings that no such
   * prefix starts and that start no such prefix, if no newline follows the character with which they leave the prefixes.
   */
  lemma NotPrefixedMatches(ps: seq<string>, s: string)
    requires exists p | p in ps :: |p| > 0
    ensures Parse(Text(ps)).Some?
    ensures Matches(Parse(Text(ps)).value, s) <==> |s| > 0 && (forall p | p in ps && |p| > 0 :: !(p <= s) && !(s <= p)) && Tidy(ps, s)
  {
    hide Text, Tree, Parse, Matches, Tidy;
    SomeFirst(ps);
    TextParses(ps);
    GroupCat(Text(ps), Tree(ps));
    BranchParses(Text(ps), Cat(Tree(ps), Empty));
    CatEmpty(Tree(ps), s);
    TreeMatches(ps, s);
    assert forall p: string :: Along(p, s) <==> p <= s || s <= p;
  }

  lemma SomeFirst(ps: seq<string>)
    requires exists p | p in ps :: |p| > 0
    ensures |Firsts(ps)| > 0
  {
    FirstsAre(ps);
    var p :| p in ps && |p| > 0;
    assert Begins(p, p[0]);
    assert Goes(ps, p[0]);
  }

  /** With nothing to exclude the class is empty, and the text is no regex. */
  lemma NothingToExclude(ps: seq<string>)
    requires forall p | p in ps :: |p| == 0
    ensures Parse(Text(ps)).None?
  {
    hide ParseCat, ParseAlt, ParseClass, ClassText, Joined;
    NoFirst(ps);
    EmptyClass();
    assert Text(ps) == "(?:" + "[^].*" + ")" by { EmptyText(ps); }
    assert Text(ps)[3..] == "[^].*)";
    RefusedAtom(Text(ps));
  }

  lemma {:induction false} NoFirst(ps: seq<string>)
    requires forall p | p in ps :: |p| == 0
    ensures Firsts(ps) == []
    decreases |ps|
  {
    if |ps| > 0 {
      assert ps[0] in ps;
      NoFirst(ps[1..]);
    }
  }

  lemma EmptyText(ps: seq<string>)
    requires Firsts(ps) == []
    ensures Text(ps) == "(?:" + "[^].*" + ")"
  {
    assert ClassText([]) == "" && Kept(ps, []) == [];
    assert "[^" + "" + "].*" == "[^].*";
  }

  lemma RefusedAtom(s: string)
    requires !Ends(s) && ParseAtom(s).None?
    ensures Parse(s).None? && ParseAlt(s).None?
  {
    hide ParseAtom;
    assert ParseCat(s).None?;
  }

  lemma EmptyClass()
    ensures ParseAlt("[^].*)").None?
  {
    hide ParseClass;
    var s := "[^].*)";
    CloseParses(".*)");
    assert s[2..] == "]" + ".*)";
    RefusedAtom(s);
  }

  /**
   * "Doesn't start with one of the prefixes" is what the text is documented to say. Of a string s that starts with none
   * it says so exactly when s does not stop inside a prefix and no newline follows the character with which it leaves
   * them; and if one of the prefixes is empty, which starts every string and which the text ignores, exactly when s is
   * not matched.
   */
  lemma PromiseHolds(ps: seq<string>, s: string)
    requires exists p | p in ps :: |p| > 0
    ensures Parse(Text(ps)).Some?
    ensures (Matches(Parse(Text(ps)).value, s) <==> forall p | p in ps :: !(p <= s)) <==>
      if "" in ps then !(Leaves(ps, s) && Tidy(ps, s)) else (exists p | p in ps :: p <= s) || ((forall p | p in ps :: !(s < p)) && Tidy(ps, s))
  {
    hide Text, Parse, Matches, Tidy;
    NotPrefixedMatches(ps, s);
    var q :| q in ps && |q| > 0;
    if "" in ps {
      assert "" <= s;
      assert forall p: string :: Along(p, s) <==> p <= s || s <= p;
    } else {
      assert forall p | p in ps :: |p| > 0;
      if |s| == 0 { assert s < q; }
    }
  }

  lemma OneText(c: char)
    requires c != '-'
    ensures Text([[c]]) == "(?:" + ("[^" + EscapeChar(c) + "].*") + ")"
  {
    hide EscapeChar;
    var ps := [[c]];
    assert ps[1..] == [] && [c][1..] == "" && Firsts([]) == [];
    assert Firsts(ps) == [c];
    assert Strip(ps, c) == [""] + Strip([], c) && Strip([], c) == [];
    assert Strip(ps, c)[0] == "";
    assert [c][1..] == [] && Kept(ps, []) == [] && Kept(ps, [c]) == [];
    assert Plain([]) == "" && Plain([c]) == EscapeChar(c) + "" && ClassText([c]) == EscapeChar(c);
  }

  /** The texts for a character that means something in a regex, and for a prefix of two characters. */
  lemma Texts()
    ensures Text(["."]) == "(?:[^\\.].*)" && Text(["ab"]) == "(?:[^a].*|a(?:[^b].*))"
  {
    hide Text, EscapeChar;
    Escapes();
    OneText('.');
    OneText('b');
    TwoText('a', 'b');
    assert "." == ['.'] && "ab" == ['a', 'b'] && ['b'] == "b";
  }

  lemma Escapes()
    ensures EscapeChar('.') == "\\." && EscapeChar('a') == "a" && EscapeChar('b') == "b"
  {}

  lemma TwoText(c: char, d: char)
    requires c != '-'
    ensures Text([[c, d]]) == "(?:" + ("[^" + EscapeChar(c) + "].*" + ("|" + (EscapeChar(c) + Text([[d]])))) + ")"
  {
    hide EscapeChar;
    var ps := [[c, d]];
    assert ps[1..] == [] && [c, d][1..] == [d] && Firsts([]) == [];
    assert Firsts(ps) == [c];
    assert Strip(ps, c) == [[d]] + Strip([], c) && Strip([], c) == [] && Strip(ps, c) == [[d]];
    assert [c][1..] == [] && Kept(ps, []) == [] && Kept(ps, [c]) == [c];
    assert Plain([]) == "" && Plain([c]) == EscapeChar(c) + "" && ClassText([c]) == EscapeChar(c);
    FirstsAre(ps);
    assert Joined(ps, EscapeChar(c) + Text([[d]]), []) == EscapeChar(c) + Text([[d]]);
  }

  /** A line that stops inside the one prefix starts with none, and is not matched. */
  lemma StopsInside()
    ensures Parse(Text(["uapi/"])).Some? && !Matches(Parse(Text(["uapi/"])).value, "uapi") && !("uapi/" <= "uapi")
  {
    hide Text, Parse, Matches;
    var ps, s := ["uapi/"], "uapi";
    assert ps[0] in ps && s <= ps[0];
    NotPrefixedMatches(ps, s);
  }

  /** A newline after the first character hides a string that starts with none of the prefixes. */
  lemma NewlineHides()
    ensures Parse(Text(["uapi/"])).Some? && !Matches(Parse(Text(["uapi/"])).value, "x\n") && !("uapi/" <= "x\n")
  {
    hide Text, Parse, Matches;
    var ps, s := ["uapi/"], "x\n";
    assert ps[0] in ps && s[1] == '\n';
    NotPrefixedMatches(ps, s);
    forall p | p in ps ensures !(s[..1] <= p) { assert s[..1][0] == 'x' && p == "uapi/" && p[0] == 'u'; }
    assert !Reached(ps, s[..1]);
  }

  /** An empty prefix excludes nothing. */
  lemma EmptyIgnored()
    ensures Parse(Text(["", "a"])).Some? && Matches(Parse(Text(["", "a"])).value, "b") && "" <= "b"
  {
    hide Text, Parse, Matches;
    var ps, s := ["", "a"], "b";
    assert ps[1] in ps;
    NotPrefixedMatches(ps, s);
    assert forall p | p in ps && |p| > 0 :: p == "a";
    TidyLine(ps, s);
    assert "a"[0] != s[0] && !("a" <= s) && !(s <= "a");
  }

  lemma {:induction false} LiteralIs(d: string, text: string, r: Re)
    requires CatIs(text, r) && !Begins(text, '*') && |text| > 0
    ensures CatIs(Escape(d) + text, Literal(d, r)) && !Begins(Escape(d) + text, '*')
    decreases |d|
  {
    hide ParseAtom;
    if |d| == 0 { assert Escape(d) + text == text; } else {
      LiteralIs(d[1..], text, r);
      var c, others := d[0], Escape(d[1..]) + text;
      forall rest: string | Ends(rest)
        ensures ParseCat(Escape(d) + text + rest) == Some(Parsed(Literal(d, r), rest))
      {
        EscapeParses(c, others + rest);
        assert Escape(d) + text + rest == EscapeChar(c) + (others + rest);
      }
    }
  }

  ghost function Literal(d: string, r: Re): Re { if |d| == 0 then r else Cat(Chr(d[0]), Literal(d[1..], r)) }

  lemma {:induction false} LiteralMatches(d: string, r: Re, s: string)
    ensures Matches(Literal(d, r), s) <==> d <= s && Matches(r, s[|d|..])
    decreases |d|
  {
    if |d| == 0 { assert s[0..] == s; } else {
      CatSingle(Chr(d[0]), Literal(d[1..], r), s);
      if |s| > 0 {
        LiteralMatches(d[1..], r, s[1..]);
        assert s == [s[0]] + s[1..] && d == [d[0]] + d[1..];
        assert d <= s ==> s[1..][|d| - 1..] == s[|d|..];
      }
    }
  }

  lemma TextBegins(ps: seq<string>)
    ensures Begins(Text(ps), '(')
  {}

  /** blocklist_dir: the paths under dir whose rest leaves every prefix, and has no newline after that, however dir is spelled. */
  lemma BlocklistMatches(dir: string, ps: seq<string>, path: string)
    requires exists p | p in ps :: |p| > 0
    ensures Parse(Escape(dir) + "/" + Text(ps)).Some?
    ensures Matches(Parse(Escape(dir) + "/" + Text(ps)).value, path) <==>
      dir + "/" <= path && Leaves(ps, path[|dir| + 1..]) && Tidy(ps, path[|dir| + 1..])
  {
    hide Tidy, Text, Tree, Parse, Matches, AtomIs, CatIs, Leaves, Literal, Escape;
    var d := dir + "/";
    SomeFirst(ps);
    TextParses(ps);
    TextBegins(ps);
    GroupCat(Text(ps), Tree(ps));
    LiteralIs(d, Text(ps), Cat(Tree(ps), Empty));
    EscapeMore(dir, '/');
    assert Escape(d) == Escape(dir) + "/";
    BranchParses(Escape(d) + Text(ps), Literal(d, Cat(Tree(ps), Empty)));
    LiteralMatches(d, Cat(Tree(ps), Empty), path);
    if d <= path {
      CatEmpty(Tree(ps), path[|d|..]);
      TreeMatches(ps, path[|d|..]);
    }
  }

  // The loop that builds the text.

  function Join(alts: seq<string>): string
    requires |alts| > 0
  {
    if |alts| == 1 then alts[0] else alts[0] + ("|" + Join(alts[1..]))
  }

  lemma {:induction false} JoinMore(alts: seq<string>, a: string)
    requires |alts| > 0
    ensures Join(alts + [a]) == Join(alts) + ("|" + a)
    decreases |alts|
  {
    if |alts| == 1 { assert (alts + [a])[1..] == [a]; } else {
      assert (alts + [a])[1..] == alts[1..] + [a];
      JoinMore(alts[1..], a);
    }
  }

  lemma {:induction false} JoinedMore(ps: seq<string>, text: string, cs: seq<char>, c: char)
    requires forall x | x in cs + [c] :: Goes(ps, x)
    ensures Joined(ps, text, cs + [c]) == Joined(ps, text, cs) + ("|" + (EscapeChar(c) + Text(Strip(ps, c))))
    decreases |cs|
  {
    hide Text, Strip, EscapeChar, Goes, Total;
    if |cs| == 0 {
      assert (cs + [c])[1..] == [];
    } else {
      var next := EscapeChar(cs[0]) + Text(Strip(ps, cs[0]));
      assert (cs + [c])[1..] == cs[1..] + [c] && (cs + [c])[0] == cs[0];
      JoinedMore(ps, next, cs[1..], c);
      var end := "|" + (EscapeChar(c) + Text(Strip(ps, c)));
      assert text + ("|" + (Joined(ps, next, cs[1..]) + end)) == text + ("|" + Joined(ps, next, cs[1..])) + end;
    }
  }

  lemma {:induction false} KeptMore(ps: seq<string>, cs: seq<char>, c: char)
    ensures Kept(ps, cs + [c]) == Kept(ps, cs) + if "" in Strip(ps, c) then [] else [c]
    decreases |cs|
  {
    if |cs| == 0 { assert (cs + [c])[1..] == []; } else {
      assert (cs + [c])[1..] == cs[1..] + [c];
      KeptMore(ps, cs[1..], c);
    }
  }

  lemma Start(ps: seq<string>, first: string)
    ensures Kept(ps, []) == [] && Joined(ps, first, []) == first == Join([first])
  {}

  method NotPrefixed(ps: seq<string>) returns (text: string)
    ensures text == Text(ps)
    decreases Total(ps)
  {
    hide Strip, EscapeChar, ClassText, Joined, Join, Kept, Firsts, Total;
    var next := Firsts(ps);
    FirstsAre(ps);
    var alts := ["[^" + ClassText(next) + "].*"];
    ghost var first := alts[0];
    Start(ps, first);
    assert next[..0] == [];
    for i := 0 to |next|
      invariant |alts| > 0
      invariant forall c | c in Kept(ps, next[..i]) :: Goes(ps, c)
      invariant Join(alts) == Joined(ps, first, Kept(ps, next[..i]))
    {
      var c := next[i];
      assert next[..i + 1] == next[..i] + [c];
      KeptMore(ps, next[..i], c);
      var rest := Strip(ps, c);
      if "" in rest {
        assert Kept(ps, next[..i + 1]) == Kept(ps, next[..i]);
        continue;
      }
      StripIs(ps, c);
      var esc := RegexEscape([c]);
      EscapeMore("", c);
      assert "" + [c] == [c] && esc == EscapeChar(c);
      var sub := NotPrefixed(rest);
      JoinMore(alts, esc + sub);
      JoinedMore(ps, first, Kept(ps, next[..i]), c);
      alts := alts + [esc + sub];
    }
    assert next[..|next|] == next;
    text := "(?:" + Join(alts) + ")";
  }
}
