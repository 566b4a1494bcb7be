/**
 * The fragment of regular expressions that node search relies on, and the escaping that makes a
 * literal of a string (apps/api/src/puppetdb/pql-builder.ts:42-44).
 */
module Regex {
  /** Characters with a meaning of their own in a pattern. */
  const META := {'.', '*', '+', '?', '^', '$', '{', '}', '(', ')', '|', '[', ']', '\\'}

  function Escape(literal: string): string {
    if literal == "" then ""
    else (if literal[0] in META then ['\\', literal[0]] else [literal[0]]) + Escape(literal[1..])
  }

  /** One matching unit at the head of a pattern. */
  datatype Unit = Char(c: char) | Any

  /**
   * How a pattern starts: its first unit, whether it is starred, and what follows; `Beyond` is the rest of the
   * language.
   */
  datatype Head = Done | Head(unit: Unit, starred: bool, rest: string) | Beyond

  function HeadOf(p: string): (h: Head)
    ensures h.Head? ==> |h.rest| < |p|
    ensures h.Done? <==> p == ""
  {
    if p == "" then Done
    else if p[0] == '\\' then
      if |p| >= 2 && p[1] in META then Starred(Char(p[1]), p[2..]) else Beyond
    else if p[0] == '.' then Starred(Any, p[1..])
    else if p[0] in META then Beyond
    else Starred(Char(p[0]), p[1..])
  }

  /** A quantifier other than a single star, or an alternation later on, puts the pattern beyond the fragment. */
  function Starred(u: Unit, rest: string): (h: Head)
    ensures h.Head? ==> |h.rest| <= |rest|
    ensures !h.Done?
  {
    if rest == "" || rest[0] !in {'*', '+', '?', '{', '|'} then Head(u, false, rest)
    else if rest[0] == '*' && (|rest| == 1 || rest[1] !in {'*', '+', '?', '{', '|'}) then Head(u, true, rest[1..])
    else Beyond
  }

  predicate InFragment(p: string)
    decreases |p|
  {
    match HeadOf(p)
    case Done => true
    case Beyond => false
    case Head(_, _, rest) => InFragment(rest)
  }

  /** Does some prefix of `s` match all of `p`? */
  predicate MatchHere(p: string, s: string)
    decreases |p|, |s|
  {
    match HeadOf(p)
    case Done => true
    case Beyond => false
    case Head(u, false, rest) => s != "" && (u == Any || u.c == s[0]) && MatchHere(rest, s[1..])
    case Head(u, true, rest) => MatchHere(rest, s) || (s != "" && (u == Any || u.c == s[0]) && MatchHere(p, s[1..]))
  }

  /** An unanchored search, as the `~` operator runs it; `engine` decides the patterns beyond the fragment. */
  predicate Find(engine: (string, string) -> bool, p: string, s: string) {
    if InFragment(p) then exists i :: 0 <= i <= |s| && MatchHere(p, s[i..]) else engine(p, s)
  }

  predicate Contains(s: string, literal: string) {
    exists i :: 0 <= i <= |s| && literal <= s[i..]
  }

  lemma EscapeHead(literal: string)
    requires literal != ""
    ensures HeadOf(Escape(literal)) == Head(Char(literal[0]), false, Escape(literal[1..]))
  {
    var rest := Escape(literal[1..]);
    if literal[0] in META {
      assert Escape(literal)[0] == '\\' && Escape(literal)[1] == literal[0] && Escape(literal)[2..] == rest;
    } else {
      assert Escape(literal)[0] == literal[0] && Escape(literal)[1..] == rest;
    }
    if |literal| > 1 {
      assert rest[0] == '\\' || rest[0] == literal[1];
    }
  }

  lemma {:induction false} EscapedMatches(literal: string, s: string)
    ensures InFragment(Escape(literal))
    ensures MatchHere(Escape(literal), s) <==> literal <= s
    decreases |literal|
  {
    if literal != "" {
      EscapeHead(literal);
      EscapedMatches(literal[1..], if s == "" then "" else s[1..]);
      if s != "" {
        assert literal <= s <==> literal[0] == s[0] && literal[1..] <= s[1..];
      }
    }
  }

  /** Searching for an escaped string finds exactly the strings that contain it. */
  lemma EscapedFindsLiteral(engine: (string, string) -> bool, literal: string, s: string)
    ensures Find(engine, Escape(literal), s) <==> Contains(s, literal)
  {
    EscapedMatches(literal, s);
    forall i | 0 <= i <= |s| ensures MatchHere(Escape(literal), s[i..]) <==> literal <= s[i..] {
      EscapedMatches(literal, s[i..]);
    }
  }

  /** `.*` is found in every string, so a match on it says only that there is a value. */
  lemma DotStarFindsAll(engine: (string, string) -> bool, s: string)
    ensures Find(engine, ".*", s)
  {
    assert HeadOf(".*") == Head(Any, true, "");
    assert InFragment("");
    assert MatchHere("", s[0..]);
    assert MatchHere(".*", s[0..]);
  }
}
