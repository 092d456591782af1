/**
 * Shell patterns as Python's `fnmatch.fnmatchcase` reads them: `*` is any run of
 * characters (`/` included), `?` any character, `[...]` one character of a class.
 */
module Globs {
  import opened Common

  datatype Token = Star | AnyChar | Literal(c: char) | Class(negated: bool, body: string)

  /** Membership in the body of a class: single characters and ranges `a-b`. */
  predicate InBody(body: string, c: char) {
    if body == "" then false
    else if |body| >= 3 && body[1] == '-' then body[0] <= c <= body[2] || InBody(body[3..], c)
    else body[0] == c || InBody(body[1..], c)
  }

  predicate Accepts(t: Token, c: char)
    requires !t.Star?
  {
    match t
    case AnyChar => true
    case Literal(d) => c == d
    case Class(negated, body) => negated != InBody(body, c)
  }

  /** Position of the first `c` in `s` from `i` on; `|s|` if there is none. */
  function Find(s: string, c: char, i: nat): (j: nat)
    requires i <= |s|
    ensures i <= j <= |s| && (j < |s| ==> s[j] == c)
    ensures forall k :: i <= k < j ==> s[k] != c
    decreases |s| - i
  {
    if i == |s| || s[i] == c then i else Find(s, c, i + 1)
  }

  /** Where the class opened at position 0 closes: a `]` right after `[` or `[!` belongs to the class. */
  function ClassEnd(pattern: string): (j: nat)
    requires pattern != ""
    ensures 1 <= j <= |pattern|
  {
    var afterBang := if 1 < |pattern| && pattern[1] == '!' then 2 else 1;
    var start := if afterBang < |pattern| && pattern[afterBang] == ']' then afterBang + 1 else afterBang;
    Find(pattern, ']', start)
  }

  function Tokens(pattern: string): seq<Token> {
    if pattern == "" then []
    else if pattern[0] == '*' then [Star] + Tokens(pattern[1..])
    else if pattern[0] == '?' then [AnyChar] + Tokens(pattern[1..])
    else if pattern[0] == '[' && ClassEnd(pattern) < |pattern| then
      var negated := pattern[1] == '!';
      var body :=
        if negated && 2 <= ClassEnd(pattern) then pattern[2..ClassEnd(pattern)] else pattern[1..ClassEnd(pattern)];
      [Class(negated, body)] + Tokens(pattern[ClassEnd(pattern) + 1..])
    else [Literal(pattern[0])] + Tokens(pattern[1..])
  }

  predicate TokensMatch(tokens: seq<Token>, q: string)
    decreases |tokens| + |q|
  {
    if tokens == [] then q == ""
    else if tokens[0].Star? then
      TokensMatch(tokens[1..], q) || (q != "" && TokensMatch(tokens, q[1..]))
    else
      q != "" && Accepts(tokens[0], q[0]) && TokensMatch(tokens[1..], q[1..])
  }

  /** `fnmatch.fnmatchcase(path, pattern)` */
  predicate Matches(pattern: string, path: string) {
    TokensMatch(Tokens(pattern), path)
  }

  /** The first `n` characters are what the token stands for. */
  predicate Fits(t: Token, q: string, n: nat) {
    n <= |q| && (t.Star? || (n == 1 && Accepts(t, q[0])))
  }

  /** A pattern that begins with a token matches what can be cut into a part for the token and a match of the rest. */
  lemma {:induction false} MatchIsCut(tokens: seq<Token>, q: string)
    requires tokens != []
    ensures TokensMatch(tokens, q) <==> exists n: nat :: Fits(tokens[0], q, n) && TokensMatch(tokens[1..], q[n..])
    decreases |q|
  {
    if !tokens[0].Star? {
      assert q != "" ==> q[1..] == q[1..];
    } else {
      if TokensMatch(tokens[1..], q) {
        assert q[0..] == q && Fits(tokens[0], q, 0);
      }
      if q != "" {
        MatchIsCut(tokens, q[1..]);
        forall n: nat | n < |q|
          ensures q[1..][n..] == q[n + 1..] && (Fits(tokens[0], q[1..], n) <==> Fits(tokens[0], q, n + 1))
        {
        }
        if n: nat :| Fits(tokens[0], q[1..], n) && TokensMatch(tokens[1..], q[1..][n..]) {
          assert Fits(tokens[0], q, n + 1);
        }
        if n: nat :| Fits(tokens[0], q, n) && TokensMatch(tokens[1..], q[n..]) && n > 0 {
          assert q[1..][n - 1..] == q[n..] && Fits(tokens[0], q[1..], n - 1);
        }
      }
      if n: nat :| Fits(tokens[0], q, n) && TokensMatch(tokens[1..], q[n..]) && n == 0 {
        assert q[0..] == q;
      }
    }
  }

  /** What a pattern with one more construct at its start is read as. */
  lemma TokensOfOne(rest: string, c: char)
    ensures Tokens("*" + rest) == [Star] + Tokens(rest)
    ensures Tokens("?" + rest) == [AnyChar] + Tokens(rest)
    ensures !IsWildcard(c) ==> Tokens([c] + rest) == [Literal(c)] + Tokens(rest)
  {
    assert ("*" + rest)[1..] == rest && ("?" + rest)[1..] == rest && ([c] + rest)[1..] == rest;
  }

  /** The characters of a class stand between brackets, after an exclamation mark if they are shut out. */
  predicate IsClassBody(body: string) {
    body != "" && body[0] != '!' && forall i :: 0 <= i < |body| ==> body[i] != ']'
  }

  lemma TokensOfClass(rest: string, body: string)
    requires IsClassBody(body)
    ensures Tokens("[" + body + "]" + rest) == [Class(false, body)] + Tokens(rest)
  {
    var pattern := "[" + body + "]" + rest;
    assert pattern[1..|body| + 1] == body && pattern[|body| + 2..] == rest;
    ClassCloses(pattern, 1, body);
    assert pattern[1] == body[0];
    assert ClassEnd(pattern) == |body| + 1;
  }

  lemma TokensOfNegatedClass(rest: string, body: string)
    requires IsClassBody(body)
    ensures Tokens("[!" + body + "]" + rest) == [Class(true, body)] + Tokens(rest)
  {
    var pattern := "[!" + body + "]" + rest;
    assert pattern[2..|body| + 2] == body && pattern[|body| + 3..] == rest;
    ClassCloses(pattern, 2, body);
    assert pattern[2] == body[0];
    assert ClassEnd(pattern) == |body| + 2;
  }

  lemma ClassCloses(pattern: string, start: nat, body: string)
    requires start + |body| < |pattern| && pattern[start..start + |body|] == body && pattern[start + |body|] == ']'
    requires IsClassBody(body)
    ensures Find(pattern, ']', start) == start + |body|
  {
    forall i | start <= i < start + |body| ensures pattern[i] != ']' {
      assert pattern[start..start + |body|][i - start] == pattern[i];
    }
  }

  /** What a construct other than a star accepts. */
  lemma AcceptsExactly(c: char, d: char, body: string)
    ensures Accepts(AnyChar, c) && (Accepts(Literal(d), c) <==> c == d)
    ensures Accepts(Class(false, body), c) <==> InBody(body, c)
    ensures Accepts(Class(true, body), c) <==> !InBody(body, c)
  {
  }

  /** A class holds its characters, and those between the ends of its ranges. */
  lemma {:induction false} ClassHolds(body: string, a: char, b: char, c: char)
    ensures '-' !in body ==> (InBody(body, c) <==> c in body)
    ensures InBody([a, '-', b] + body, c) <==> a <= c <= b || InBody(body, c)
  {
    assert ([a, '-', b] + body)[3..] == body;
    if body != "" {
      ClassHolds(body[1..], a, b, c);
      assert body == [body[0]] + body[1..];
      assert |body| >= 2 ==> body[1] in body;
    }
  }

  /* ---- The fixed prefix of a pattern ---- */

  predicate IsWildcard(c: char) {
    c == '*' || c == '[' || c == '?'
  }

  /** Length of the pattern up to its first wildcard character. */
  function LiteralLength(pattern: string): (n: nat)
    ensures n <= |pattern| && (n < |pattern| ==> IsWildcard(pattern[n]))
    ensures forall i :: 0 <= i < n ==> !IsWildcard(pattern[i])
  {
    if pattern == "" || IsWildcard(pattern[0]) then 0 else 1 + LiteralLength(pattern[1..])
  }

  /** What precedes the last `/`; nothing if there is none. */
  function Parent(s: string): (p: string)
    ensures p <= s
  {
    if s == "" then "" else if s[|s| - 1] == '/' then s[..|s| - 1] else Parent(s[..|s| - 1])
  }

  /** `_glob_fixed_prefix`: the directory every matching path is under. */
  function FixedPrefix(pattern: string): string {
    var n := LiteralLength(pattern);
    if n == |pattern| then pattern else Parent(pattern[..n])
  }

  predicate IsLiteral(s: string) {
    forall i :: 0 <= i < |s| ==> !IsWildcard(s[i])
  }

  lemma {:induction false} LiteralLengthIs(literal: string, rest: string)
    requires IsLiteral(literal) && rest != "" && IsWildcard(rest[0])
    ensures LiteralLength(literal + rest) == |literal|
  {
    if literal == "" {
      assert literal + rest == rest;
    } else {
      assert (literal + rest)[1..] == literal[1..] + rest;
      LiteralLengthIs(literal[1..], rest);
    }
  }

  lemma {:induction false} ParentIs(directory: string, name: string)
    requires forall i :: 0 <= i < |name| ==> name[i] != '/'
    ensures Parent(directory + "/" + name) == directory && Parent(name) == ""
  {
    if name == "" {
      assert directory + "/" + name == directory + "/";
    } else {
      var init := name[..|name| - 1];
      assert (directory + "/" + name)[..|directory| + |name|] == directory + "/" + init;
      ParentIs(directory, init);
    }
  }

  /** The fixed prefix is the last directory before the first wildcard, and all of a pattern without wildcards. */
  lemma FixedPrefixIs(directory: string, name: string, rest: string)
    requires IsLiteral(directory) && IsLiteral(name) && forall i :: 0 <= i < |name| ==> name[i] != '/'
    requires rest != "" && IsWildcard(rest[0])
    ensures FixedPrefix(directory + "/" + name + rest) == directory
    ensures FixedPrefix(name + rest) == "" && FixedPrefix(directory) == directory
  {
    LiteralLengthIs(directory + "/" + name, rest);
    LiteralLengthIs(name, rest);
    ParentIs(directory, name);
    assert (directory + "/" + name + rest)[..|directory + "/" + name|] == directory + "/" + name;
    assert (name + rest)[..|name|] == name;
  }

  lemma {:induction false} LiteralsMatch(pattern: string, q: string)
    requires Matches(pattern, q)
    ensures pattern[..LiteralLength(pattern)] <= q
    ensures LiteralLength(pattern) == |pattern| ==> q == pattern
  {
    if pattern != "" && !IsWildcard(pattern[0]) {
      var n := LiteralLength(pattern);
      assert Tokens(pattern)[1..] == Tokens(pattern[1..]);
      LiteralsMatch(pattern[1..], q[1..]);
      assert pattern[..n] == [pattern[0]] + pattern[1..][..n - 1];
      assert q == [q[0]] + q[1..];
      assert pattern == [pattern[0]] + pattern[1..];
    }
  }

  /** Every path a pattern matches starts with its fixed prefix. */
  lemma MatchesStartWithFixedPrefix(pattern: string, q: string)
    requires Matches(pattern, q)
    ensures FixedPrefix(pattern) <= q
  {
    LiteralsMatch(pattern, q);
  }

  /* ---- Paths as the program writes them ---- */

  /** What the component of a path that is being read is so far. */
  datatype Component = Empty | Dot | DotDot | Named

  /** The component after one more character; None if no path goes on like that. */
  function Step(k: Component, c: char): Option<Component> {
    if c == '\0' || c == '\\' then None
    else if c == '/' then if k.Named? then Some(Empty) else None
    else if c == '.' && k.Empty? then Some(Dot)
    else if c == '.' && k.Dot? then Some(DotDot)
    else Some(Named)
  }

  /** The rest of a path. */
  predicate GoesOn(k: Component, q: string)
    decreases q
  {
    if q == "" then k.Named? else Step(k, q[0]).Some? && GoesOn(Step(k, q[0]).value, q[1..])
  }

  /** A normalised path is "." or has components between single slashes, none of them "." or "..". */
  predicate IsPath(q: string) {
    q == "." || GoesOn(Empty, q)
  }

  /** What follows a path inside a longer one goes on from a finished component. */
  lemma {:induction false} PathInside(k: Component, start: string, rest: string)
    requires GoesOn(k, start)
    ensures GoesOn(k, start + rest) <==> GoesOn(Named, rest)
    decreases start
  {
    if start == "" {
      assert start + rest == rest;
    } else {
      assert (start + rest)[1..] == start[1..] + rest;
      PathInside(Step(k, start[0]).value, start[1..], rest);
    }
  }

  lemma {:induction false} PathEndsInName(k: Component, q: string)
    requires GoesOn(k, q) && q != ""
    ensures q[|q| - 1] != '/'
    decreases q
  {
    if |q| > 1 {
      PathEndsInName(Step(k, q[0]).value, q[1..]);
    }
  }

  /* ---- Whether a pattern matches a path under a directory ---- */

  /** The pattern can match the rest of some path. After a star that rest may begin anywhere. */
  ghost predicate CanEnd(tokens: seq<Token>, k: Component) {
    if tokens == [] then k.Named?
    else if tokens[0].Star? then exists j: Component :: CanEnd(tokens[1..], j)
    else exists c :: Accepts(tokens[0], c) && Step(k, c).Some? && CanEnd(tokens[1..], Step(k, c).value)
  }

  /** Runs the pattern along `start`: can it still match a path that begins like this? */
  ghost predicate Reaches(tokens: seq<Token>, start: string, k: Component)
    decreases |tokens| + |start|
  {
    if start == "" then CanEnd(tokens, k)
    else if tokens == [] then false
    else if tokens[0].Star? && Reaches(tokens[1..], start, k) then true
    else
      && (tokens[0].Star? || Accepts(tokens[0], start[0])) && Step(k, start[0]).Some?
      && Reaches(if tokens[0].Star? then tokens else tokens[1..], start[1..], Step(k, start[0]).value)
  }

  lemma {:induction false} MatchReaches(tokens: seq<Token>, start: string, rest: string, k: Component)
    requires TokensMatch(tokens, start + rest) && GoesOn(k, start + rest)
    ensures Reaches(tokens, start, k)
    decreases |tokens| + |start| + |rest|
  {
    if start == "" {
      assert start + rest == rest;
      MatchCanEnd(tokens, rest, k);
    } else if tokens != [] {
      assert (start + rest)[1..] == start[1..] + rest;
      if tokens[0].Star? && TokensMatch(tokens[1..], start + rest) {
        MatchReaches(tokens[1..], start, rest, k);
      } else {
        MatchReaches(if tokens[0].Star? then tokens else tokens[1..], start[1..], rest, Step(k, start[0]).value);
      }
    }
  }

  lemma {:induction false} MatchCanEnd(tokens: seq<Token>, q: string, k: Component)
    requires TokensMatch(tokens, q) && GoesOn(k, q)
    ensures CanEnd(tokens, k)
    decreases |tokens| + |q|
  {
    if tokens != [] {
      if !tokens[0].Star? {
        MatchCanEnd(tokens[1..], q[1..], Step(k, q[0]).value);
      } else if TokensMatch(tokens[1..], q) {
        MatchCanEnd(tokens[1..], q, k);
      } else {
        MatchCanEnd(tokens, q[1..], Step(k, q[0]).value);
      }
    }
  }

  lemma {:induction false} ReachesMatch(tokens: seq<Token>, start: string, k: Component) returns (rest: string)
    requires Reaches(tokens, start, k)
    ensures TokensMatch(tokens, start + rest) && GoesOn(k, start + rest)
    decreases |tokens| + |start|
  {
    if start == "" {
      rest := SomeEnd(tokens, k);
      assert start + rest == rest;
    } else if tokens[0].Star? && Reaches(tokens[1..], start, k) {
      rest := ReachesMatch(tokens[1..], start, k);
    } else {
      rest := ReachesMatch(if tokens[0].Star? then tokens else tokens[1..], start[1..], Step(k, start[0]).value);
      assert (start + rest)[1..] == start[1..] + rest;
    }
  }

  /** From anywhere in a path, characters that lead to the component. */
  function Way(to: Component): string {
    match to
    case Named => "a"
    case Empty => "a/"
    case Dot => "a/."
    case DotDot => "a/.."
  }

  lemma StepOn(k: Component, c: char, q: string)
    requires Step(k, c).Some? && GoesOn(Step(k, c).value, q)
    ensures GoesOn(k, [c] + q)
  {
    assert ([c] + q)[1..] == q;
  }

  lemma WayLeads(k: Component, to: Component, q: string)
    requires GoesOn(to, q)
    ensures GoesOn(k, Way(to) + q)
  {
    var rest := q;
    if to.DotDot? {
      StepOn(Dot, '.', rest);
      rest := ['.'] + rest;
    }
    if to.Dot? || to.DotDot? {
      StepOn(Empty, '.', rest);
      rest := ['.'] + rest;
    }
    if !to.Named? {
      StepOn(Named, '/', rest);
      rest := ['/'] + rest;
    }
    StepOn(k, 'a', rest);
    assert Way(to) + q == ['a'] + rest;
  }

  lemma {:induction false} StarTakes(tokens: seq<Token>, way: string, q: string)
    requires tokens != [] && tokens[0].Star? && TokensMatch(tokens[1..], q)
    ensures TokensMatch(tokens, way + q)
    decreases |way|
  {
    if way == "" {
      assert way + q == q;
    } else {
      StarTakes(tokens, way[1..], q);
      assert (way + q)[1..] == way[1..] + q;
    }
  }

  lemma {:induction false} SomeEnd(tokens: seq<Token>, k: Component) returns (q: string)
    requires CanEnd(tokens, k)
    ensures TokensMatch(tokens, q) && GoesOn(k, q)
  {
    if tokens == [] {
      q := "";
    } else if tokens[0].Star? {
      var j: Component :| CanEnd(tokens[1..], j);
      var tail := SomeEnd(tokens[1..], j);
      StarTakes(tokens, Way(j), tail);
      WayLeads(k, j, tail);
      q := Way(j) + tail;
    } else {
      var c :| Accepts(tokens[0], c) && Step(k, c).Some? && CanEnd(tokens[1..], Step(k, c).value);
      var tail := SomeEnd(tokens[1..], Step(k, c).value);
      q := [c] + tail;
      assert q[1..] == tail;
    }
  }

  /** `Reaches` decides whether the pattern matches some path that starts with `start`. */
  lemma ReachesIsExact(pattern: string, start: string)
    ensures Reaches(Tokens(pattern), start, Empty) <==>
            exists q :: start <= q && GoesOn(Empty, q) && Matches(pattern, q)
  {
    if Reaches(Tokens(pattern), start, Empty) {
      var rest := ReachesMatch(Tokens(pattern), start, Empty);
      assert start <= start + rest && Matches(pattern, start + rest);
    }
    if q :| start <= q && GoesOn(Empty, q) && Matches(pattern, q) {
      assert q == start + q[|start|..];
      MatchReaches(Tokens(pattern), start, q[|start|..], Empty);
    }
  }
}
