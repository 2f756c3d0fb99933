/** Scanning Redis for a literal prefix: the escaped pattern, and the server's matcher. */
module Glob {
  predicate Special(c: char) {
    c == '\\' || c == '*' || c == '?' || c == '[' || c == ']'
  }

  function Escape(literal: string): string {
    if literal == "" then "" else
      (if Special(literal[0]) then ['\\', literal[0]] else [literal[0]]) + Escape(literal[1..])
  }

  /** Whether `c` is in the class that `p` continues with, and the pattern after it. */
  function InClass(p: string, c: char, hit: bool): (r: (bool, string))
    ensures |r.1| <= |p|
  {
    if p == "" then (hit, "")
    else if p[0] == '\\' && |p| >= 2 then InClass(p[2..], c, hit || p[1] == c)
    else if p[0] == ']' then (hit, p[1..])
    else if |p| >= 3 && p[1] == '-' then
      InClass(p[3..], c, hit || (p[0] <= c <= p[2]) || (p[2] <= c <= p[0]))
    else InClass(p[1..], c, hit || p[0] == c)
  }

  /** The matcher: `*` is any text, `?` any character, `[...]` a class, and a backslash takes the next one literally. */
  predicate Matches(p: string, s: string)
    decreases |p| + |s|
  {
    if p == "" then s == ""
    else if p[0] == '*' then Matches(p[1..], s) || (s != "" && Matches(p, s[1..]))
    else if s == "" then false
    else if p[0] == '?' then Matches(p[1..], s[1..])
    else if p[0] == '[' then
      var negated := |p| >= 2 && p[1] == '^';
      var (hit, rest) := InClass(if negated then p[2..] else p[1..], s[0], false);
      hit != negated && Matches(rest, s[1..])
    else if p[0] == '\\' && |p| >= 2 then p[1] == s[0] && Matches(p[2..], s[1..])
    else p[0] == s[0] && Matches(p[1..], s[1..])
  }

  lemma {:induction false} StarMatchesAll(s: string)
    ensures Matches("*", s)
  {
    assert "*"[1..] == "";
    if s != "" {
      StarMatchesAll(s[1..]);
    }
  }

  /** One escaped character matches itself and nothing else. */
  lemma {:induction false} EscapedHead(c: char, rest: string, s: string)
    ensures Matches((if Special(c) then ['\\', c] else [c]) + rest, s) <==> s != "" && s[0] == c && Matches(rest, s[1..])
  {
    var head := if Special(c) then ['\\', c] else [c];
    var p := head + rest;
    assert p[0] == head[0] && p[|head|..] == rest;
    if Special(c) {
      assert p[1] == c;
    }
  }

  /** Escaped text and a star match exactly the keys with that prefix, whatever characters the prefix has. */
  lemma {:induction false} EscapedPrefix(literal: string, s: string)
    ensures Matches(Escape(literal) + "*", s) <==> literal <= s
  {
    if literal == "" {
      StarMatchesAll(s);
      assert Escape(literal) + "*" == "*";
    } else {
      var head := if Special(literal[0]) then ['\\', literal[0]] else [literal[0]];
      var rest := Escape(literal[1..]) + "*";
      assert Escape(literal) + "*" == head + rest;
      EscapedHead(literal[0], rest, s);
      if s != "" {
        EscapedPrefix(literal[1..], s[1..]);
        assert literal <= s <==> literal[0] == s[0] && literal[1..] <= s[1..];
      }
    }
  }
}
