/**
 * File changes and the conflicts between them. A change records which lines of
 * which file an agent changed; `DetectConflicts` compares pairs of changes.
 */
module Conflicts {
  import opened Common
  import opened Globs
  import opened Reservations
  import opened Leases

  /** One hunk of a stored diff; fields may be missing, and an entry may not be a hunk at all. */
  datatype Hunk =
    | Malformed
    | Hunk(newStart: Option<int>, oldStart: Option<int>, newCount: Option<int>, oldCount: Option<int>)

  datatype Change = Change(
    id: Id, room: Option<Id>, lease: Option<Id>, token: Option<nat>, origin: Origin, resource: Option<Id>,
    path: string, worktree: Option<string>, beforeSha: Option<Id>, afterSha: Option<Id>,
    withheld: bool, hunks: seq<Hunk>)

  datatype Range = Range(first: int, last: int)

  datatype Reason = IncompleteEvidence | OverlappingHunks | SeparateHunks | StalePrecondition | NestedPaths

  predicate IsHard(r: Reason) {
    r.IncompleteEvidence? || r.OverlappingHunks? || r.StalePrecondition?
  }

  datatype Finding = Finding(reason: Reason, candidate: Id, other: Id)

  datatype Report = Report(safe: bool, hard: nat, potential: nat, findings: seq<Finding>)

  /** The first value present, 0 counting as absent; 1 if there is none. */
  function FieldOr1(first: Option<int>, second: Option<int>): int {
    var v := if first.Some? then first.value else if second.Some? then second.value else 1;
    if v == 0 then 1 else v
  }

  function HunkRange(h: Hunk): Range
    requires h.Hunk?
  {
    var start, count := FieldOr1(h.newStart, h.oldStart), Max(FieldOr1(h.newCount, h.oldCount), 1);
    Range(start, start + count - 1)
  }

  /** The changed lines, or None when the stored evidence does not tell them. */
  function ChangedRanges(c: Change): (r: Option<seq<Range>>)
    ensures r.Some? <==> !c.withheld && c.hunks != [] && Malformed !in c.hunks
  {
    if c.withheld || c.hunks == [] || Malformed in c.hunks then None
    else Some(seq(|c.hunks|, i requires 0 <= i < |c.hunks| => HunkRange(c.hunks[i])))
  }

  predicate RangesOverlap(left: seq<Range>, right: seq<Range>) {
    exists a, b :: a in left && b in right && Max(a.first, b.first) <= Min(a.last, b.last)
  }

  predicate Touches(ranges: seq<Range>, line: int) {
    exists r :: r in ranges && r.first <= line <= r.last
  }

  /** Comparing the ends of ranges finds exactly the shared lines. */
  lemma OverlapIsSharedLine(left: seq<Range>, right: seq<Range>)
    ensures RangesOverlap(left, right) <==> exists line :: Touches(left, line) && Touches(right, line)
  {
    if a, b :| a in left && b in right && Max(a.first, b.first) <= Min(a.last, b.last) {
      var line := Max(a.first, b.first);
      assert Touches(left, line) && Touches(right, line);
    }
    if line :| Touches(left, line) && Touches(right, line) {
      var a :| a in left && a.first <= line <= a.last;
      var b :| b in right && b.first <= line <= b.last;
      assert Max(a.first, b.first) <= Min(a.last, b.last);
    }
  }

  /** The changed file as seen from the root of its worktree. */
  function LogicalPath(c: Change): string {
    if c.worktree.None? || c.worktree.value == "" then c.path
    else if c.path == c.worktree.value then "."
    else if Directory(c.worktree.value) <= c.path then c.path[|Directory(c.worktree.value)|..]
    else c.path
  }

  predicate SameNamespace(a: Change, b: Change) {
    (a.room.Some? && a.room == b.room) || (a.origin == b.origin && a.resource == b.resource)
  }

  predicate IsStale(candidate: Change, other: Change) {
    candidate.beforeSha.Some? && other.afterSha.Some? && candidate.beforeSha != other.afterSha
  }

  function ReasonFor(candidate: Change, other: Change): Option<Reason> {
    var p, q := LogicalPath(candidate), LogicalPath(other);
    if candidate.id == other.id || !SameNamespace(candidate, other) then None
    else if p == q then
      var l, r := ChangedRanges(candidate), ChangedRanges(other);
      if IsStale(candidate, other) then Some(StalePrecondition)
      else if l.None? || r.None? then Some(IncompleteEvidence)
      else if RangesOverlap(l.value, r.value) then Some(OverlappingHunks)
      else Some(SeparateHunks)
    else if Directory(q) <= p || Directory(p) <= q then Some(NestedPaths)
    else None
  }

  /** Both changes are to the same file, and it is not known that the candidate can go on top of the other. */
  ghost predicate Collide(candidate: Change, other: Change) {
    && candidate.id != other.id
    && SameNamespace(candidate, other)
    && LogicalPath(candidate) == LogicalPath(other)
    && (|| ChangedRanges(candidate).None? || ChangedRanges(other).None?
        || (exists line :: Touches(ChangedRanges(candidate).value, line) && Touches(ChangedRanges(other).value, line))
        || IsStale(candidate, other))
  }

  lemma HardExactlyWhenColliding(candidate: Change, other: Change)
    ensures ReasonFor(candidate, other).Some? && IsHard(ReasonFor(candidate, other).value) <==>
            Collide(candidate, other)
  {
    var l, r := ChangedRanges(candidate), ChangedRanges(other);
    if l.Some? && r.Some? {
      OverlapIsSharedLine(l.value, r.value);
    }
  }

  /** A change inside a worktree is to the file as seen from its root, any other to the file its path names. */
  lemma LogicalPathIs(c: Change)
    requires c.worktree.Some? && c.worktree.value != "" ==> IsPath(c.worktree.value)
    requires IsPath(c.path)
    ensures c.worktree.None? || c.worktree.value == "" ==> LogicalPath(c) == c.path
    ensures c.worktree.Some? && c.worktree.value != "" ==>
              var root := c.worktree.value;
              && (forall p :: IsPath(p) && c.path == Joined(root, p) ==> LogicalPath(c) == p)
              && ((forall p :: IsPath(p) ==> c.path != Joined(root, p)) ==> LogicalPath(c) == c.path)
  {
    if c.worktree.Some? && c.worktree.value != "" && c.worktree.value != "." {
      var root := c.worktree.value;
      RootHasNoSlash(root);
      forall p | IsPath(p) && c.path == Joined(root, p) ensures LogicalPath(c) == p {
        if p != "." {
          assert (root + "/" + p)[|root| + 1..] == p;
        }
      }
      CoversWhatIsInside(Path(root, true), c.path);
      assert c.path == root ==> c.path == Joined(root, ".") && IsPath(".");
    } else {
      StrippedDot();
      assert c.path == Joined(".", c.path);
      assert c.path[0] == '.' && |c.path| >= 2 && c.path[1] == '/' ==> !GoesOn(Dot, c.path[1..]);
    }
  }

  /** A hunk stands for as many lines from its start on as its count says; 0 or nothing reads as 1 in both. */
  lemma HunkCoversLines(h: Hunk, line: int)
    requires h.Hunk?
    ensures h.newStart.Some? && h.newStart.value >= 1 && h.newCount.Some? && h.newCount.value >= 1 ==>
              (Touches([HunkRange(h)], line) <==> h.newStart.value <= line < h.newStart.value + h.newCount.value)
    ensures h.newStart.None? && h.newCount.None? && h.oldStart.Some? && h.oldStart.value >= 1
              && h.oldCount.Some? && h.oldCount.value >= 1 ==>
              (Touches([HunkRange(h)], line) <==> h.oldStart.value <= line < h.oldStart.value + h.oldCount.value)
    ensures h.newStart == Some(0) && h.newCount == Some(0) ==> (Touches([HunkRange(h)], line) <==> line == 1)
    ensures h == Hunk.Hunk(None, None, None, None) ==> (Touches([HunkRange(h)], line) <==> line == 1)
  {
    assert HunkRange(h) in [HunkRange(h)];
  }

  /**
   * Which reason a pair is reported for. Pairs are compared inside a room, or inside
   * one resource of one origin; a stale precondition comes before everything else.
   */
  lemma ReasonExactly(candidate: Change, other: Change)
    ensures var r := ReasonFor(candidate, other);
            var compared := candidate.id != other.id
                            && (|| (candidate.room.Some? && candidate.room == other.room)
                                || (candidate.origin == other.origin && candidate.resource == other.resource));
            var sameFile := LogicalPath(candidate) == LogicalPath(other);
            var stale := candidate.beforeSha.Some? && other.afterSha.Some?
                         && candidate.beforeSha.value != other.afterSha.value;
            var told := ChangedRanges(candidate).Some? && ChangedRanges(other).Some?;
            var shared := told && exists line :: Touches(ChangedRanges(candidate).value, line)
                                                 && Touches(ChangedRanges(other).value, line);
            && (r == Some(StalePrecondition) <==> compared && sameFile && stale)
            && (r == Some(IncompleteEvidence) <==> compared && sameFile && !stale && !told)
            && (r == Some(OverlappingHunks) <==> compared && sameFile && !stale && shared)
            && (r == Some(SeparateHunks) <==> compared && sameFile && !stale && told && !shared)
            && (r == Some(NestedPaths) <==>
                compared && !sameFile
                && (|| Directory(LogicalPath(candidate)) <= LogicalPath(other)
                    || Directory(LogicalPath(other)) <= LogicalPath(candidate)))
            && (r.Some? ==> (IsHard(r.value) <==>
                             r.value in {StalePrecondition, IncompleteEvidence, OverlappingHunks}))
  {
    hide LogicalPath, ChangedRanges;
    if ChangedRanges(candidate).Some? && ChangedRanges(other).Some? {
      OverlapIsSharedLine(ChangedRanges(candidate).value, ChangedRanges(other).value);
    }
  }

  /** What the comparison of one candidate with the first n others finds. */
  function FindingsFor(candidate: Change, others: seq<Change>): seq<Finding> {
    if others == [] then []
    else
      var o := others[|others| - 1];
      FindingsFor(candidate, others[..|others| - 1])
      + if ReasonFor(candidate, o).Some? then [Finding(ReasonFor(candidate, o).value, candidate.id, o.id)] else []
  }

  function Findings(candidates: seq<Change>, others: seq<Change>): seq<Finding> {
    if candidates == [] then []
    else Findings(candidates[..|candidates| - 1], others) + FindingsFor(candidates[|candidates| - 1], others)
  }

  function CountHard(fs: seq<Finding>): nat {
    if fs == [] then 0 else CountHard(fs[..|fs| - 1]) + if IsHard(fs[|fs| - 1].reason) then 1 else 0
  }

  function ReportOn(candidates: seq<Change>, others: seq<Change>): Report {
    var fs := Findings(candidates, others);
    var hard := CountHard(fs);
    CountAtMost(fs);
    Report(hard == 0, hard, |fs| - hard, fs)
  }

  lemma CountAtMost(fs: seq<Finding>)
    ensures CountHard(fs) <= |fs|
    ensures CountHard(fs) == 0 <==> forall f :: f in fs ==> !IsHard(f.reason)
  {
    if fs != [] {
      CountAtMost(fs[..|fs| - 1]);
      assert fs == fs[..|fs| - 1] + [fs[|fs| - 1]];
    }
  }

  lemma {:induction false} FindingsForContents(candidate: Change, others: seq<Change>, f: Finding)
    ensures f in FindingsFor(candidate, others) <==>
            exists o ::
              o in others && ReasonFor(candidate, o).Some?
                && f == Finding(ReasonFor(candidate, o).value, candidate.id, o.id)
  {
    if others != [] {
      var o, rest := others[|others| - 1], others[..|others| - 1];
      assert others == rest + [o];
      FindingsForContents(candidate, rest, f);
    }
  }

  lemma {:induction false} FindingsContents(candidates: seq<Change>, others: seq<Change>, f: Finding)
    ensures f in Findings(candidates, others) <==> exists c :: c in candidates && f in FindingsFor(c, others)
  {
    hide FindingsFor;
    if candidates != [] {
      var last, rest := candidates[|candidates| - 1], candidates[..|candidates| - 1];
      FindingsContents(rest, others, f);
      assert forall c :: c in candidates <==> c in rest || c == last by {
        assert candidates == rest + [last];
      }
      var newest := FindingsFor(last, others);
      assert f in Findings(candidates, others) <==> f in Findings(rest, others) || f in newest;
      if f in newest {
        assert last in candidates && f in FindingsFor(last, others);
      }
    }
  }

  /**
   * A report is safe exactly when no candidate collides with any change it is
   * compared with: every pair on one file has complete evidence, no line in
   * common and no outdated precondition.
   */
  lemma SafeExactlyWhenNothingCollides(candidates: seq<Change>, others: seq<Change>)
    ensures ReportOn(candidates, others).safe <==>
            forall c, o :: c in candidates && o in others ==> !Collide(c, o)
  {
    var fs := Findings(candidates, others);
    CountAtMost(fs);
    forall c, o | c in candidates && o in others && Collide(c, o)
      ensures exists f :: f in fs && IsHard(f.reason)
    {
      HardExactlyWhenColliding(c, o);
      var f := Finding(ReasonFor(c, o).value, c.id, o.id);
      FindingsForContents(c, others, f);
      FindingsContents(candidates, others, f);
    }
    forall f | f in fs && IsHard(f.reason)
      ensures exists c, o :: c in candidates && o in others && Collide(c, o)
    {
      FindingsContents(candidates, others, f);
      var c :| c in candidates && f in FindingsFor(c, others);
      FindingsForContents(c, others, f);
      var o :| o in others && ReasonFor(c, o).Some? && f == Finding(ReasonFor(c, o).value, c.id, o.id);
      HardExactlyWhenColliding(c, o);
    }
  }

  /** The double loop of the service; both lists hold rows of a table, so ids do not repeat. */
  method DetectConflicts(candidates: seq<Change>, others: seq<Change>) returns (r: Report)
    requires forall i, j :: 0 <= i < j < |candidates| ==> candidates[i].id != candidates[j].id
    requires forall i, j :: 0 <= i < j < |others| ==> others[i].id != others[j].id
    ensures r == ReportOn(candidates, others)
  {
    hide ReasonFor, IsHard, CountHard;
    var findings: seq<Finding> := [];
    var seen: set<(Id, Id)> := {};
    for i := 0 to |candidates|
      invariant findings == Findings(candidates[..i], others)
      invariant forall p :: p in seen ==> exists k :: 0 <= k < i && p.0 == candidates[k].id
    {
      var c := candidates[i];
      ghost var earlier := findings;
      for j := 0 to |others|
        invariant findings == earlier + FindingsFor(c, others[..j])
        invariant forall p :: p in seen ==>
          || (exists k :: 0 <= k < i && p.0 == candidates[k].id)
          || (p.0 == c.id && exists k :: 0 <= k < j && p.1 == others[k].id)
      {
        var o := others[j];
        assert others[..j + 1][..j] == others[..j];
        var pair := (c.id, o.id);
        SelfIsNotCompared(c, o);
        assert pair !in seen;
        if pair !in seen && c.id != o.id {
          seen := seen + {pair};
          var reason := Classify(c, o);
          if reason.Some? {
            findings := findings + [Finding(reason.value, c.id, o.id)];
          }
        }
      }
      assert others[..|others|] == others && candidates[..i + 1][..i] == candidates[..i];
    }
    assert candidates[..|candidates|] == candidates;
    var hard := CountConflicts(findings);
    r := Report(hard == 0, hard, |findings| - hard, findings);
  }

  method CountConflicts(findings: seq<Finding>) returns (hard: nat)
    ensures hard == CountHard(findings) <= |findings|
  {
    hard := 0;
    for i := 0 to |findings|
      invariant hard == CountHard(findings[..i]) && hard <= i
    {
      assert findings[..i + 1][..i] == findings[..i];
      if IsHard(findings[i].reason) {
        hard := hard + 1;
      }
    }
    assert findings[..|findings|] == findings;
  }

  lemma SelfIsNotCompared(c: Change, o: Change)
    ensures c.id == o.id ==> ReasonFor(c, o).None?
  {
  }

  /** The branches of the comparison of one pair of distinct changes. */
  method Classify(candidate: Change, other: Change) returns (reason: Option<Reason>)
    requires candidate.id != other.id
    ensures reason == ReasonFor(candidate, other)
  {
    reason := None;
    var p, q := LogicalPath(candidate), LogicalPath(other);
    if !SameNamespace(candidate, other) {
      return;
    }
    if p == q {
      var l, r := ChangedRanges(candidate), ChangedRanges(other);
      if l.None? || r.None? {
        reason := Some(IncompleteEvidence);
      } else if RangesOverlap(l.value, r.value) {
        reason := Some(OverlappingHunks);
      } else {
        reason := Some(SeparateHunks);
      }
      if IsStale(candidate, other) {
        reason := Some(StalePrecondition);
      }
    } else if Directory(q) <= p || Directory(p) <= q {
      reason := Some(NestedPaths);
    }
  }
}
