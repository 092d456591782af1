/**
 * The order in which history rows are listed: by timestamp, then by id, ids
 * being compared as strings, character by character.
 */
module Ordering {

  datatype Key = Key(stamp: int, id: string)

  predicate StringLess(a: string, b: string) {
    if b == "" then false
    else if a == "" then true
    else a[0] < b[0] || (a[0] == b[0] && StringLess(a[1..], b[1..]))
  }

  predicate KeyLess(a: Key, b: Key) {
    a.stamp < b.stamp || (a.stamp == b.stamp && StringLess(a.id, b.id))
  }

  lemma {:induction false} StringLessTotal(a: string, b: string)
    ensures a == b || StringLess(a, b) || StringLess(b, a)
    ensures !(StringLess(a, b) && StringLess(b, a))
    ensures a == b ==> !StringLess(a, b)
  {
    if a != "" && b != "" {
      StringLessTotal(a[1..], b[1..]);
      if a[0] == b[0] && a[1..] == b[1..] {
        assert a == [a[0]] + a[1..] == [b[0]] + b[1..] == b;
      }
    }
  }

  lemma {:induction false} StringLessTransitive(a: string, b: string, c: string)
    requires StringLess(a, b) && StringLess(b, c)
    ensures StringLess(a, c)
  {
    if a != "" && a[0] == b[0] == c[0] {
      StringLessTransitive(a[1..], b[1..], c[1..]);
    }
  }

  /** `a` is a proper start of `b`, or has the smaller character where they part. */
  ghost predicate InDictionary(a: string, b: string) {
    (|a| < |b| && a == b[..|a|]) || exists i: nat :: PartAt(a, b, i) && a[i] < b[i]
  }

  predicate PartAt(a: string, b: string, i: nat) {
    i < |a| && i < |b| && a[..i] == b[..i] && a[i] != b[i]
  }

  lemma FirstCharacterDecides(a: string, b: string)
    requires a != "" && b != "" && a[0] != b[0]
    ensures InDictionary(a, b) <==> a[0] < b[0]
  {
    assert PartAt(a, b, 0);
    forall i | 0 < i <= |a| && i <= |b| ensures a[..i] != b[..i] {
      assert a[..i][0] == a[0] && b[..i][0] == b[0];
    }
  }

  lemma {:induction false} StringLessIsDictionary(a: string, b: string)
    ensures StringLess(a, b) <==> InDictionary(a, b)
  {
    if a != "" && b != "" {
      if a[0] == b[0] {
        StringLessIsDictionary(a[1..], b[1..]);
        StartsAlike(a, b);
      } else {
        FirstCharacterDecides(a, b);
      }
    }
  }

  lemma StartsAlike(a: string, b: string)
    requires a != "" && b != "" && a[0] == b[0]
    ensures InDictionary(a, b) <==> InDictionary(a[1..], b[1..])
  {
    var x, y := a[1..], b[1..];
    assert a == [a[0]] + x && b == [b[0]] + y;
    forall i: nat ensures PartAt(x, y, i) <==> PartAt(a, b, i + 1) {
      if i < |x| && i < |y| {
        assert a[..i + 1] == [a[0]] + x[..i] && b[..i + 1] == [b[0]] + y[..i];
      }
    }
    assert |a| < |b| ==> b[..|a|] == [b[0]] + y[..|x|];
    if i: nat :| PartAt(a, b, i) && a[i] < b[i] {
      assert PartAt(x, y, i - 1);
    }
    if i: nat :| PartAt(x, y, i) && x[i] < y[i] {
      assert PartAt(a, b, i + 1);
    }
  }

  /** The order is a strict total order on keys. */
  lemma KeyLessTotal(a: Key, b: Key)
    ensures a == b || KeyLess(a, b) || KeyLess(b, a)
    ensures !(KeyLess(a, b) && KeyLess(b, a))
    ensures a == b ==> !KeyLess(a, b)
  {
    StringLessTotal(a.id, b.id);
  }

  lemma KeyLessTransitive(a: Key, b: Key, c: Key)
    requires KeyLess(a, b) && KeyLess(b, c)
    ensures KeyLess(a, c)
  {
    if a.stamp == b.stamp == c.stamp {
      StringLessTransitive(a.id, b.id, c.id);
    }
  }

  /** `a` is listed before `b`, in a listing that runs from new to old or from old to new. */
  predicate Before(a: Key, b: Key, newestFirst: bool) {
    if newestFirst then KeyLess(b, a) else KeyLess(a, b)
  }

  /** A listing in which no key is repeated. */
  ghost predicate Listed(keys: seq<Key>, newestFirst: bool) {
    forall i, j :: 0 <= i < j < |keys| ==> Before(keys[i], keys[j], newestFirst)
  }

  /** In a listing, positions and keys are in the same order. */
  lemma PositionOrder(keys: seq<Key>, newestFirst: bool, i: nat, j: nat)
    requires Listed(keys, newestFirst) && i < |keys| && j < |keys|
    ensures Before(keys[i], keys[j], newestFirst) <==> i < j
    ensures keys[i] == keys[j] <==> i == j
  {
    KeyLessTotal(keys[i], keys[j]);
  }

  /**
   * If every key of one listing occurs in another, then a key never stands
   * further along in the first than in the second.
   */
  lemma {:induction false} RankAtMost(part: seq<Key>, all: seq<Key>, newestFirst: bool, k: nat, i: nat)
    requires Listed(part, newestFirst) && Listed(all, newestFirst)
    requires forall x :: x in part ==> x in all
    requires k < |part| && i < |all| && part[k] == all[i]
    ensures k <= i
    decreases k
  {
    if k > 0 {
      assert part[k - 1] in all;
      var j :| 0 <= j < |all| && all[j] == part[k - 1];
      PositionOrder(part, newestFirst, k - 1, k);
      PositionOrder(all, newestFirst, j, i);
      RankAtMost(part, all, newestFirst, k - 1, j);
    }
  }

  /** A listing of some of the keys is no longer than a listing of all of them. */
  lemma LengthAtMost(part: seq<Key>, all: seq<Key>, newestFirst: bool)
    requires Listed(part, newestFirst) && Listed(all, newestFirst)
    requires forall x :: x in part ==> x in all
    ensures |part| <= |all|
  {
    if part != [] {
      var last := |part| - 1;
      assert part[last] in all;
      var i :| 0 <= i < |all| && all[i] == part[last];
      RankAtMost(part, all, newestFirst, last, i);
    }
  }

  /** Two listings with the same keys are the same listing. */
  lemma ListingUnique(a: seq<Key>, b: seq<Key>, newestFirst: bool)
    requires Listed(a, newestFirst) && Listed(b, newestFirst)
    requires forall x :: x in a <==> x in b
    ensures a == b
  {
    LengthAtMost(a, b, newestFirst);
    LengthAtMost(b, a, newestFirst);
    forall k | 0 <= k < |a| ensures b[k] == a[k] {
      assert a[k] in b;
      var i :| 0 <= i < |b| && b[i] == a[k];
      RankAtMost(a, b, newestFirst, k, i);
      RankAtMost(b, a, newestFirst, i, k);
    }
  }
}
