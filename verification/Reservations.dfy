/**
 * Reservations of paths inside a room, and the syntactic test that decides
 * whether two of them may collide.
 */
module Reservations {
  import opened Common
  import opened Globs

  /** A path, with everything under it when it is recursive, or a shell pattern. */
  datatype Reservation = Path(raw: string, recursive: bool) | Glob(raw: string)
  {
    /** A missing or empty pattern reads as ".". */
    function Pattern(): string {
      if raw == "" then "." else raw
    }
  }

  /** `rstrip("/")` */
  function StripSlashes(s: string): (r: string)
    ensures r <= s && (r != "" ==> r[|r| - 1] != '/')
    ensures forall i :: |r| <= i < |s| ==> s[i] == '/'
  {
    if s != "" && s[|s| - 1] == '/' then StripSlashes(s[..|s| - 1]) else s
  }

  /** What every path strictly under `pattern` starts with. */
  function Directory(pattern: string): string {
    StripSlashes(pattern) + "/"
  }

  predicate Covers(r: Reservation, path: string) {
    match r
    case Glob(_) => Matches(r.Pattern(), path)
    case Path(_, recursive) =>
      path == r.Pattern() || (recursive && (r.Pattern() == "." || Directory(r.Pattern()) <= path))
  }

  /** The path `p` of something inside a directory, as seen from outside. */
  function Joined(root: string, p: string): string {
    if root == "." then p else if p == "." then root else root + "/" + p
  }

  lemma RootHasNoSlash(root: string)
    requires IsPath(root) && root != "."
    ensures Directory(root) == root + "/"
  {
    PathEndsInName(Empty, root);
  }

  lemma DotIsNoName()
    ensures !GoesOn(Empty, ".")
  {
    assert "."[1..] == "";
  }

  /** A reservation of a path covers the path, and if it is recursive exactly what is inside it too. */
  lemma CoversWhatIsInside(r: Reservation, q: string)
    requires r.Path? && IsPath(r.Pattern()) && IsPath(q)
    ensures Covers(r, q) <==> q == r.Pattern() || (r.recursive && exists p :: IsPath(p) && q == Joined(r.Pattern(), p))
  {
    var root := r.Pattern();
    if root == "." {
      assert q == Joined(root, q);
    } else {
      RootHasNoSlash(root);
      if Directory(root) <= q {
        var p := q[|root| + 1..];
        assert q == root + ("/" + p) && q != ".";
        PathInside(Empty, root, "/" + p);
        assert ("/" + p)[1..] == p;
        DotIsNoName();
        assert IsPath(p) && p != "." && q == Joined(root, p);
      }
    }
  }

  predicate PathMeetsGlob(left: Reservation, right: Reservation) {
    var prefix := FixedPrefix(right.Pattern());
    Matches(right.Pattern(), left.Pattern())
    || (prefix != "" && (prefix <= left.Pattern() || Directory(left.Pattern()) <= prefix))
  }

  /** `reservations_overlap` */
  predicate Overlap(left: Reservation, right: Reservation) {
    if left.Path? && right.Path? then Covers(left, right.Pattern()) || Covers(right, left.Pattern())
    else if left.Path? then PathMeetsGlob(left, right)
    else if right.Path? then PathMeetsGlob(right, left)
    else
      var leftPrefix, rightPrefix := FixedPrefix(left.Pattern()), FixedPrefix(right.Pattern());
      leftPrefix == "" || rightPrefix == "" || rightPrefix <= leftPrefix || leftPrefix <= rightPrefix
  }

  predicate SetsOverlap(left: seq<Reservation>, right: seq<Reservation>) {
    exists a, b :: a in left && b in right && Overlap(a, b)
  }

  /** Some string is in both, whether it can be a path or not. */
  ghost predicate Meet(left: Reservation, right: Reservation) {
    exists q :: Covers(left, q) && Covers(right, q)
  }

  ghost predicate HaveCommonPath(left: Reservation, right: Reservation) {
    exists q :: IsPath(q) && Covers(left, q) && Covers(right, q)
  }

  /** The order in which two reservations are compared does not matter. */
  lemma OverlapSymmetric(left: Reservation, right: Reservation)
    ensures Overlap(left, right) == Overlap(right, left)
  {
  }

  lemma PrefixesOfOne(a: string, b: string, q: string)
    requires a <= q && b <= q
    ensures a <= b || b <= a
  {
    if |a| <= |b| {
      assert a == q[..|a|] == b[..|a|];
    } else {
      assert b == q[..|b|] == a[..|b|];
    }
  }

  lemma PrefixOfInit(a: string, b: string, c: string)
    requires a <= b + c && |a| <= |b|
    ensures a <= b
  {
    assert a == (b + c)[..|a|] == b[..|a|];
  }

  lemma LongerDirectory(o: string, i: string, q: string)
    requires o + "/" <= q && i + "/" <= q && |o| < |i|
    ensures o + "/" <= i
  {
    forall k | 0 <= k <= |o| ensures (o + "/")[k] == i[k] {
      assert (o + "/")[k] == q[k] == (i + "/")[k];
    }
  }

  lemma SameDirectory(o: string, i: string, q: string)
    requires o + "/" <= q && i + "/" <= q && |o| == |i|
    ensures o == i
  {
    forall k | 0 <= k < |o| ensures o[k] == i[k] {
      assert (o + "/")[k] == q[k] == (i + "/")[k];
    }
  }

  lemma SameStripped(outer: string, inner: string)
    requires StripSlashes(outer) == StripSlashes(inner) && |outer| <= |inner|
    ensures outer == inner || Directory(outer) <= inner
  {
    var o := StripSlashes(outer);
    if |outer| == |inner| {
      assert forall k :: 0 <= k < |outer| ==> outer[k] == inner[k];
    } else {
      forall k | 0 <= k <= |o| ensures Directory(outer)[k] == inner[k] {
      }
    }
  }

  /** Of two directories that contain a common path, the one with the longer name is covered by the other. */
  lemma NestedDirectories(outer: string, inner: string, q: string)
    requires Directory(outer) <= q && Directory(inner) <= q
    requires |StripSlashes(outer)| < |StripSlashes(inner)|
             || (|StripSlashes(outer)| == |StripSlashes(inner)| && |outer| <= |inner|)
    ensures outer == inner || Directory(outer) <= inner
  {
    var o, i := StripSlashes(outer), StripSlashes(inner);
    if |o| < |i| {
      LongerDirectory(o, i, q);
    } else {
      SameDirectory(o, i, q);
      SameStripped(outer, inner);
    }
  }

  /**
   * On two path reservations the test is exact: it says yes if and only if some
   * string is in both, and for normalised ones if and only if some path is.
   */
  lemma PathOverlapIsExact(left: Reservation, right: Reservation)
    requires left.Path? && right.Path?
    ensures Overlap(left, right) <==> Meet(left, right)
    ensures IsPath(left.Pattern()) && IsPath(right.Pattern()) ==>
            (Overlap(left, right) <==> HaveCommonPath(left, right))
  {
    if Covers(left, right.Pattern()) {
      assert Covers(right, right.Pattern());
    }
    if Covers(right, left.Pattern()) {
      assert Covers(left, left.Pattern());
    }
    if q :| Covers(left, q) && Covers(right, q) {
      var l, r := left.Pattern(), right.Pattern();
      if q != l && q != r && l != "." && r != "." {
        if |StripSlashes(l)| < |StripSlashes(r)| || (|StripSlashes(l)| == |StripSlashes(r)| && |l| <= |r|) {
          NestedDirectories(l, r, q);
        } else {
          NestedDirectories(r, l, q);
        }
      }
    }
  }

  /** Two patterns that match a common string are always reported. */
  lemma GlobOverlapIsSound(left: Reservation, right: Reservation)
    requires left.Glob? && right.Glob? && Meet(left, right)
    ensures Overlap(left, right)
  {
    var q :| Covers(left, q) && Covers(right, q);
    MatchesStartWithFixedPrefix(left.Pattern(), q);
    MatchesStartWithFixedPrefix(right.Pattern(), q);
    PrefixesOfOne(FixedPrefix(left.Pattern()), FixedPrefix(right.Pattern()), q);
  }

  /** Two texts part at a place that both have. */
  predicate Part(a: string, b: string) {
    exists i :: 0 <= i < |a| && i < |b| && a[i] != b[i]
  }

  /** Nothing is reported on patterns in different directories, nor on a path beside the directory of a pattern. */
  lemma ApartIsFree(left: Reservation, right: Reservation)
    ensures left.Glob? && right.Glob? && Part(FixedPrefix(left.Pattern()), FixedPrefix(right.Pattern())) ==>
              !Overlap(left, right)
    ensures left.Path? && right.Glob? && !Matches(right.Pattern(), left.Pattern()) ==>
              Part(Directory(left.Pattern()), FixedPrefix(right.Pattern())) ==> !Overlap(left, right)
  {
    var p, prefix := left.Pattern(), FixedPrefix(right.Pattern());
    if prefix <= p {
      forall i | 0 <= i < |Directory(p)| && i < |prefix| ensures Directory(p)[i] == prefix[i] {
        assert prefix[i] == p[i];
      }
    }
  }

  /** What a path reservation covers besides the path itself all starts with this. */
  function Below(path: Reservation): string {
    if path.Pattern() == "." then "" else Directory(path.Pattern())
  }

  /** The pattern is not compared with the directory, or not so that it helps. */
  predicate NotCompared(path: Reservation, glob: Reservation) {
    var prefix := FixedPrefix(glob.Pattern());
    prefix == "" || (path.Pattern() == "." && !(prefix <= ".") && !("./" <= prefix))
  }

  /**
   * When the test goes wrong: the path is recursive, the pattern does not match the
   * path itself, the pattern has no fixed prefix or the path is ".", whose text
   * begins no path, and the pattern can match a path below the directory.
   */
  ghost predicate Missed(path: Reservation, glob: Reservation) {
    && path.Path? && glob.Glob? && path.recursive
    && !Matches(glob.Pattern(), path.Pattern())
    && NotCompared(path, glob)
    && Reaches(Tokens(glob.Pattern()), Below(path), Empty)
  }

  lemma StrippedDot()
    ensures Directory(".") == "./"
  {
    assert StripSlashes(".") == ".";
  }

  /** On a path and a pattern the test is sound outside that case, and unsound in all of it. */
  lemma PathGlobOverlapSoundUnlessMissed(path: Reservation, glob: Reservation)
    requires path.Path? && glob.Glob?
    ensures (HaveCommonPath(path, glob) ==> Overlap(path, glob)) <==> !Missed(path, glob)
  {
    var p, g := path.Pattern(), glob.Pattern();
    ReachesIsExact(g, Below(path));
    StrippedDot();
    if Missed(path, glob) {
      var q :| Below(path) <= q && GoesOn(Empty, q) && Matches(g, q);
      assert IsPath(q) && Covers(path, q) && Covers(glob, q);
    }
    if q :| IsPath(q) && Covers(path, q) && Covers(glob, q) && !Overlap(path, glob) {
      assert q != p && Below(path) <= q && GoesOn(Empty, q);
      if p != "." && FixedPrefix(g) != "" {
        FixedPrefixMeetsDirectory(p, g, q);
      }
    }
  }

  lemma FixedPrefixMeetsDirectory(p: string, g: string, q: string)
    requires Directory(p) <= q && Matches(g, q)
    ensures FixedPrefix(g) <= p || Directory(p) <= FixedPrefix(g)
  {
    MatchesStartWithFixedPrefix(g, q);
    PrefixesOfOne(FixedPrefix(g), Directory(p), q);
    if |FixedPrefix(g)| <= |StripSlashes(p)| {
      PrefixOfInit(FixedPrefix(g), StripSlashes(p), "/");
    }
  }

  /** A pattern with a fixed prefix against a path other than ".": nothing is missed. */
  lemma NothingMissedUnderFixedPrefix(path: Reservation, glob: Reservation)
    requires path.Path? && glob.Glob?
    requires FixedPrefix(glob.Pattern()) != "" && path.Pattern() != "."
    ensures HaveCommonPath(path, glob) ==> Overlap(path, glob)
  {
    PathGlobOverlapSoundUnlessMissed(path, glob);
  }

  // "a" and "*.b" share "a/.b", and the test does not see it; "." and "a/*" share "a/b".
  lemma MissedCollisions()
    ensures HaveCommonPath(Path("a", true), Glob("*.b")) && !Overlap(Path("a", true), Glob("*.b"))
    ensures HaveCommonPath(Path(".", true), Glob("a/*")) && !Overlap(Path(".", true), Glob("a/*"))
  {
    StarFirst();
    StarUnderDirectory();
  }

  lemma StarFirst()
    ensures HaveCommonPath(Path("a", true), Glob("*.b")) && !Overlap(Path("a", true), Glob("*.b"))
  {
    var tokens := [Star, Literal('.'), Literal('b')];
    assert Tokens("*.b") == tokens;
    assert TokensMatch(tokens[1..], ".b");
    assert TokensMatch(tokens, ".b");
    assert "/.b"[1..] == ".b" && "a/.b"[1..] == "/.b";
    assert TokensMatch(tokens, "/.b");
    assert Covers(Path("a", true), "a/.b") && Covers(Glob("*.b"), "a/.b");
    assert ".b"[1..] == "b" && "b"[1..] == "" && GoesOn(Dot, "b") && GoesOn(Empty, ".b") && GoesOn(Named, "/.b");
    assert IsPath("a/.b");
  }

  lemma StarUnderDirectory()
    ensures HaveCommonPath(Path(".", true), Glob("a/*")) && !Overlap(Path(".", true), Glob("a/*"))
  {
    var tokens := [Literal('a'), Literal('/'), Star];
    assert Tokens("a/*") == tokens;
    assert TokensMatch(tokens[2..], "b");
    assert "a/b"[1..] == "/b" && "/b"[1..] == "b" && tokens[1..][1..] == tokens[2..];
    assert TokensMatch(tokens[1..], "/b");
    assert Covers(Path(".", true), "a/b") && Covers(Glob("a/*"), "a/b");
    assert "b"[1..] == "" && GoesOn(Empty, "b") && GoesOn(Named, "/b") && IsPath("a/b");
    StrippedDot();
  }
}
