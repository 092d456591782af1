/**
 * One page of history out of two stores. Recent rows are in the hot database,
 * offloaded rows in the cold archive, and a row may be in both while it moves.
 * Each store answers with its own first page; `MergeHistoryPages` combines the
 * two, and a client walks on from the last row it was shown.
 */
module HistoryMerge {
  import opened Common
  import opened Ordering

  /** A listed row: `stamp` is None when its timestamp field cannot be parsed, `body` is the rest of it. */
  datatype Item = Item(id: string, stamp: Option<Time>, body: Id)

  datatype Page = Page(items: seq<Item>, hasMore: bool)

  datatype ProtocolError = ColdIdMissing | HotIdMissing | BadTimestamp

  predicate WellFormed(x: Item) {
    x.id != "" && x.stamp.Some?
  }

  function KeyOf(x: Item): Key {
    Key(if x.stamp.Some? then x.stamp.value else 0, x.id)
  }

  function Keys(s: seq<Item>): (keys: seq<Key>)
    ensures |keys| == |s| && forall i :: 0 <= i < |s| ==> keys[i] == KeyOf(s[i])
  {
    seq(|s|, i requires 0 <= i < |s| => KeyOf(s[i]))
  }

  ghost predicate NewestFirst(s: seq<Item>) {
    Listed(Keys(s), true)
  }

  ghost predicate HasId(s: seq<Item>, id: string) {
    exists x :: x in s && x.id == id
  }

  /** The item a mapping filled from `s` keeps for an id: the last one. */
  function Kept(s: seq<Item>, id: string): (r: Option<Item>)
    ensures r.Some? ==> r.value in s && r.value.id == id
    ensures r.None? ==> forall x :: x in s ==> x.id != id
  {
    if s == [] then None
    else if s[|s| - 1].id == id then Some(s[|s| - 1])
    else Kept(s[..|s| - 1], id)
  }

  /** The item the merge keeps for an id: a hot one if there is any, else a cold one. */
  function KeptOf(hot: seq<Item>, cold: seq<Item>, id: string): Option<Item> {
    if Kept(hot, id).Some? then Kept(hot, id) else Kept(cold, id)
  }

  /** Slicing up to `limit`; a negative limit counts from the end. */
  function UpTo(s: seq<Item>, limit: int): seq<Item> {
    if limit >= 0 then s[..Min(limit, |s|)] else s[..Max(0, |s| + limit)]
  }

  /** `page` is cut from `ordered`, which lists what survives the merge, newest first. */
  ghost predicate Merges(page: Page, ordered: seq<Item>, hot: seq<Item>, cold: seq<Item>, limit: int, hotMore: bool,
                         coldMore: bool)
  {
    && NewestFirst(ordered)
    && (forall x :: x in ordered <==> KeptOf(hot, cold, x.id) == Some(x))
    && page == Page(UpTo(ordered, limit), |ordered| > limit || hotMore || coldMore)
  }

  function InsertByKey(s: seq<Item>, x: Item): seq<Item> {
    if s == [] then [x]
    else if KeyLess(KeyOf(s[0]), KeyOf(x)) then [x] + s
    else [s[0]] + InsertByKey(s[1..], x)
  }

  lemma {:induction false} InsertKeepsOrder(s: seq<Item>, x: Item)
    requires NewestFirst(s) && KeyOf(x) !in Keys(s)
    ensures NewestFirst(InsertByKey(s, x))
    ensures forall y :: y in InsertByKey(s, x) <==> y in s || y == x
  {
    if s == [] {
    } else if KeyLess(KeyOf(s[0]), KeyOf(x)) {
      forall i | 0 <= i < |s| ensures KeyLess(KeyOf(s[i]), KeyOf(x)) {
        if i > 0 {
          assert Before(Keys(s)[0], Keys(s)[i], true);
          KeyLessTransitive(KeyOf(s[i]), KeyOf(s[0]), KeyOf(x));
        }
      }
      var t := [x] + s;
      assert forall i, j :: 0 <= i < j < |t| ==> Before(Keys(t)[i], Keys(t)[j], true);
    } else {
      var rest := s[1..];
      assert forall i :: 0 <= i < |rest| ==> Keys(rest)[i] == Keys(s)[i + 1];
      InsertKeepsOrder(rest, x);
      KeyLessTotal(KeyOf(s[0]), KeyOf(x));
      assert KeyOf(s[0]) == Keys(s)[0];
      var t := InsertByKey(rest, x);
      forall k | 0 <= k < |t| ensures KeyLess(KeyOf(t[k]), KeyOf(s[0])) {
        assert t[k] in t;
        if t[k] != x {
          var i :| 0 <= i < |rest| && rest[i] == t[k];
          assert Before(Keys(s)[0], Keys(s)[i + 1], true);
        }
      }
      var u := [s[0]] + t;
      assert forall i, j :: 0 <= i < j < |u| ==> Before(Keys(u)[i], Keys(u)[j], true);
    }
  }

  /** Python's `sorted(values, key=item_order_key, reverse=True)`; the ids, hence the keys, are distinct. */
  method SortNewestFirst(values: map<string, Item>) returns (r: Result<seq<Item>, ProtocolError>)
    requires forall id :: id in values ==> values[id].id == id
    ensures r.Failure? ==> r.error == BadTimestamp && exists id :: id in values && values[id].stamp.None?
    ensures r.Success? ==> NewestFirst(r.value) && forall id :: id in values ==> values[id].stamp.Some?
    ensures r.Success? ==> forall x :: x in r.value <==> x.id in values && values[x.id] == x
  {
    var rest, ordered := values, [];
    while rest != map[]
      invariant forall id :: id in rest ==> id in values && rest[id] == values[id]
      invariant NewestFirst(ordered)
      invariant forall x :: x in ordered <==> x.id in values && x.id !in rest && values[x.id] == x
      invariant forall id :: id in values && id !in rest ==> values[id].stamp.Some?
      decreases rest.Keys
    {
      var id :| id in rest;
      var x := rest[id];
      if x.stamp.None? {
        return Failure(BadTimestamp);
      }
      forall i | 0 <= i < |ordered| ensures Keys(ordered)[i] != KeyOf(x) {
        assert ordered[i] in ordered;
      }
      InsertKeepsOrder(ordered, x);
      ordered := InsertByKey(ordered, x);
      rest := map k | k in rest && k != id :: rest[k];
    }
    r := Success(ordered);
  }

  /** `m` is the mapping filled from the cold items and then from the hot ones. */
  ghost predicate Filled(m: map<string, Item>, hot: seq<Item>, cold: seq<Item>) {
    forall id :: (id in m <==> KeptOf(hot, cold, id).Some?) && (id in m ==> KeptOf(hot, cold, id) == Some(m[id]))
  }

  method MergeHistoryPages(hotItems: seq<Item>, coldItems: seq<Item>, limit: int, hotHasMore: bool, coldHasMore: bool)
    returns (r: Result<Page, ProtocolError>)
    ensures r == Failure(ColdIdMissing) <==> HasId(coldItems, "")
    ensures r == Failure(HotIdMissing) <==> !HasId(coldItems, "") && HasId(hotItems, "")
    ensures r == Failure(BadTimestamp) <==>
            && !HasId(coldItems, "") && !HasId(hotItems, "")
            && exists id :: KeptOf(hotItems, coldItems, id).Some? && KeptOf(hotItems, coldItems, id).value.stamp.None?
    ensures r.Success? ==> exists ordered ::
              Merges(r.value, ordered, hotItems, coldItems, limit, hotHasMore, coldHasMore)
  {
    var merged: map<string, Item> := map[];
    for i := 0 to |coldItems|
      invariant Filled(merged, [], coldItems[..i])
      invariant forall j :: 0 <= j < i ==> coldItems[j].id != ""
    {
      if coldItems[i].id == "" {
        return Failure(ColdIdMissing);
      }
      assert coldItems[..i + 1][..i] == coldItems[..i];
      merged := merged[coldItems[i].id := coldItems[i]];
    }
    assert coldItems[..|coldItems|] == coldItems;
    for i := 0 to |hotItems|
      invariant Filled(merged, hotItems[..i], coldItems)
      invariant forall j :: 0 <= j < i ==> hotItems[j].id != ""
    {
      if hotItems[i].id == "" {
        return Failure(HotIdMissing);
      }
      assert hotItems[..i + 1][..i] == hotItems[..i];
      merged := merged[hotItems[i].id := hotItems[i]];
    }
    assert hotItems[..|hotItems|] == hotItems;
    var sorted := SortNewestFirst(merged);
    match sorted
    case Failure(e) =>
      r := Failure(e);
    case Success(ordered) =>
      var visible := UpTo(ordered, limit);
      var hasMore := |ordered| > limit || hotHasMore || coldHasMore;
      r := Success(Page(visible, hasMore));
      assert Merges(r.value, ordered, hotItems, coldItems, limit, hotHasMore, coldHasMore);
  }

  /* ---- The page of two stores is the page of their union ---- */

  /** The rows of one store (those a query selects), as it lists them. */
  ghost predicate StoreListing(s: seq<Item>) {
    && NewestFirst(s)
    && (forall x :: x in s ==> WellFormed(x))
    && (forall x, y :: x in s && y in s && x.id == y.id ==> x == y)
  }

  /** A row that is in both stores has the same timestamp in both. */
  ghost predicate SameStamps(hot: seq<Item>, cold: seq<Item>) {
    forall h, c :: h in hot && c in cold && h.id == c.id ==> h.stamp == c.stamp
  }

  /** `x` is a row of the two stores taken together, the hot copy standing for a row that is in both. */
  ghost predicate InUnion(x: Item, hot: seq<Item>, cold: seq<Item>) {
    x in hot || (x in cold && !HasId(hot, x.id))
  }

  ghost predicate IsUnion(all: seq<Item>, hot: seq<Item>, cold: seq<Item>) {
    StoreListing(all) && forall x :: x in all <==> InUnion(x, hot, cold)
  }

  /** `all` lists the union of two stores that agree on the timestamps of shared rows. */
  ghost predicate TwoStores(all: seq<Item>, hot: seq<Item>, cold: seq<Item>) {
    && StoreListing(hot)
    && StoreListing(cold)
    && SameStamps(hot, cold)
    && IsUnion(all, hot, cold)
  }

  /** What a store answers: its first `limit` rows, and whether it has more. */
  function FirstPage(s: seq<Item>, limit: nat): Page {
    Page(s[..Min(limit, |s|)], |s| > limit)
  }

  lemma KeysCover(part: seq<Item>, all: seq<Item>)
    requires forall x :: x in part ==> exists y :: y in all && KeyOf(y) == KeyOf(x)
    ensures forall k :: k in Keys(part) ==> k in Keys(all)
  {
    forall k | k in Keys(part) ensures k in Keys(all) {
      var i :| 0 <= i < |part| && Keys(part)[i] == k;
      assert part[i] in part;
      var y :| y in all && KeyOf(y) == KeyOf(part[i]);
      var j :| 0 <= j < |all| && all[j] == y;
      assert Keys(all)[j] == k;
    }
  }

  lemma PrefixListing(s: seq<Item>, n: nat)
    requires StoreListing(s) && n <= |s|
    ensures StoreListing(s[..n])
  {
    assert forall i, j :: 0 <= i < j < n ==> Before(Keys(s)[i], Keys(s)[j], true);
  }

  lemma MergeOfListings(hot: seq<Item>, cold: seq<Item>, x: Item)
    requires StoreListing(hot) && StoreListing(cold)
    ensures KeptOf(hot, cold, x.id) == Some(x) <==> InUnion(x, hot, cold)
  {
  }

  /** The position of a row among its own store's rows is at most its position in the union. */
  lemma RankInUnion(all: seq<Item>, hot: seq<Item>, cold: seq<Item>, i: nat)
    requires TwoStores(all, hot, cold)
    requires i < |all|
    ensures all[i] in hot ==> all[i] in hot[..Min(i + 1, |hot|)]
    ensures all[i] !in hot ==> all[i] in cold[..Min(i + 1, |cold|)]
  {
    var x := all[i];
    assert x in all && InUnion(x, hot, cold);
    StoreKeysInUnion(all, hot, cold);
    if x in hot {
      var k :| 0 <= k < |hot| && hot[k] == x;
      RankAtMost(Keys(hot), Keys(all), true, k, i);
      assert hot[..Min(i + 1, |hot|)][k] == x;
    } else {
      var k :| 0 <= k < |cold| && cold[k] == x;
      RankAtMost(Keys(cold), Keys(all), true, k, i);
      assert cold[..Min(i + 1, |cold|)][k] == x;
    }
  }

  lemma StoreKeysInUnion(all: seq<Item>, hot: seq<Item>, cold: seq<Item>)
    requires TwoStores(all, hot, cold)
    ensures forall k :: k in Keys(hot) ==> k in Keys(all)
    ensures forall k :: k in Keys(cold) ==> k in Keys(all)
  {
    forall x | x in cold ensures exists y :: y in all && KeyOf(y) == KeyOf(x) {
      if HasId(hot, x.id) {
        var h :| h in hot && h.id == x.id;
        assert InUnion(h, hot, cold);
        assert h in all && KeyOf(h) == KeyOf(x);
      } else {
        assert InUnion(x, hot, cold);
      }
    }
    forall x | x in hot ensures exists y :: y in all && KeyOf(y) == KeyOf(x) {
      assert InUnion(x, hot, cold);
      assert x in all;
    }
    KeysCover(cold, all);
    KeysCover(hot, all);
  }

  /** `ordered` is what the merge sorts when each store has answered with its first page. */
  ghost predicate FromFirstPages(ordered: seq<Item>, hot: seq<Item>, cold: seq<Item>, limit: nat) {
    && NewestFirst(ordered)
    && forall x :: x in ordered <==> InUnion(x, FirstPage(hot, limit).items, FirstPage(cold, limit).items)
  }

  lemma OrderedKeysInUnion(ordered: seq<Item>, all: seq<Item>, hot: seq<Item>, cold: seq<Item>, limit: nat)
    requires TwoStores(all, hot, cold) && FromFirstPages(ordered, hot, cold, limit)
    ensures forall k :: k in Keys(ordered) ==> k in Keys(all)
  {
    var h, c := FirstPage(hot, limit).items, FirstPage(cold, limit).items;
    StoreKeysInUnion(all, hot, cold);
    forall k | k in Keys(ordered) ensures k in Keys(all) {
      var i :| 0 <= i < |ordered| && Keys(ordered)[i] == k;
      var x := ordered[i];
      assert x in ordered;
      if x in h {
        var j :| 0 <= j < |h| && h[j] == x;
        assert Keys(hot)[j] == k;
      } else {
        var j :| 0 <= j < |c| && c[j] == x;
        assert Keys(cold)[j] == k;
      }
    }
  }

  lemma FirstRowsAreMerged(all: seq<Item>, hot: seq<Item>, cold: seq<Item>, limit: nat, i: nat)
    requires TwoStores(all, hot, cold)
    requires i < |all| && i < limit
    ensures InUnion(all[i], FirstPage(hot, limit).items, FirstPage(cold, limit).items)
  {
    RankInUnion(all, hot, cold, i);
    var x := all[i];
    assert x in all && InUnion(x, hot, cold);
    if x in hot {
      var k :| 0 <= k < Min(i + 1, |hot|) && hot[k] == x;
      assert FirstPage(hot, limit).items[k] == x;
    } else {
      var k :| 0 <= k < Min(i + 1, |cold|) && cold[k] == x;
      assert FirstPage(cold, limit).items[k] == x;
    }
  }

  /** The first rows of the union are merged, and nothing that is merged comes between them. */
  lemma FirstRowsInPlace(ordered: seq<Item>, all: seq<Item>, hot: seq<Item>, cold: seq<Item>, limit: nat, i: nat)
    requires TwoStores(all, hot, cold) && FromFirstPages(ordered, hot, cold, limit)
    requires i < |all| && i < limit
    ensures i < |ordered| && ordered[i] == all[i]
  {
    FirstRowsAreMerged(all, hot, cold, limit, i);
    var j :| 0 <= j < |ordered| && ordered[j] == all[i];
    assert j <= i by {
      OrderedKeysInUnion(ordered, all, hot, cold, limit);
      assert Keys(ordered)[j] == Keys(all)[i];
      RankAtMost(Keys(ordered), Keys(all), true, j, i);
    }
    NoLaterThanRanked(ordered, all, hot, cold, limit, i, j);
  }

  lemma NoLaterThanRanked(ordered: seq<Item>, all: seq<Item>, hot: seq<Item>, cold: seq<Item>, limit: nat, i: nat,
                          j: nat)
    requires TwoStores(all, hot, cold) && FromFirstPages(ordered, hot, cold, limit)
    requires i < |all| && i < limit && j < |ordered| && ordered[j] == all[i]
    ensures i <= j
  {
    var first := all[..i + 1];
    PrefixListing(all, i + 1);
    forall x | x in first ensures exists y :: y in ordered && KeyOf(y) == KeyOf(x) {
      var m :| 0 <= m < |first| && first[m] == x;
      FirstRowsAreMerged(all, hot, cold, limit, m);
      assert x in ordered;
    }
    KeysCover(first, ordered);
    assert Keys(first)[i] == Keys(ordered)[j];
    RankAtMost(Keys(first), Keys(ordered), true, i, j);
  }

  lemma HasMoreIsTrue(ordered: seq<Item>, all: seq<Item>, hot: seq<Item>, cold: seq<Item>, limit: nat)
    requires TwoStores(all, hot, cold) && FromFirstPages(ordered, hot, cold, limit)
    ensures |all| > limit <==> |ordered| > limit || |hot| > limit || |cold| > limit
    ensures |all| <= limit ==> |ordered| == |all|
  {
    OrderedKeysInUnion(ordered, all, hot, cold, limit);
    StoreKeysInUnion(all, hot, cold);
    LengthAtMost(Keys(ordered), Keys(all), true);
    LengthAtMost(Keys(hot), Keys(all), true);
    LengthAtMost(Keys(cold), Keys(all), true);
    if |hot| <= limit && |cold| <= limit {
      forall x | x in all ensures exists y :: y in ordered && KeyOf(y) == KeyOf(x) {
        assert InUnion(x, hot, cold);
        assert x in ordered;
      }
      KeysCover(all, ordered);
      LengthAtMost(Keys(all), Keys(ordered), true);
    }
  }

  /** The merge of the first pages of two stores. */
  ghost predicate MergesFirstPages(page: Page, ordered: seq<Item>, hot: seq<Item>, cold: seq<Item>, limit: nat) {
    var h, c := FirstPage(hot, limit), FirstPage(cold, limit);
    Merges(page, ordered, h.items, c.items, limit, h.hasMore, c.hasMore)
  }

  /**
   * If each store answers with its first `limit` rows and says truly whether it
   * has more, the merged page is the first `limit` rows of the union of the
   * stores, and `hasMore` says truly whether the union has more.
   */
  lemma MergedPageIsPageOfUnion(page: Page, ordered: seq<Item>, all: seq<Item>, hot: seq<Item>, cold: seq<Item>,
                                limit: nat)
    requires TwoStores(all, hot, cold) && MergesFirstPages(page, ordered, hot, cold, limit)
    ensures page == FirstPage(all, limit)
  {
    MergedFromFirstPages(page, ordered, all, hot, cold, limit);
    HasMoreIsTrue(ordered, all, hot, cold, limit);
    FirstRowsAlike(ordered, all, hot, cold, limit);
  }

  lemma FirstRowsAlike(ordered: seq<Item>, all: seq<Item>, hot: seq<Item>, cold: seq<Item>, limit: nat)
    requires TwoStores(all, hot, cold) && FromFirstPages(ordered, hot, cold, limit)
    requires |all| <= limit ==> |ordered| == |all|
    ensures UpTo(ordered, limit) == FirstPage(all, limit).items
  {
    var n := Min(limit, |all|);
    if n > 0 {
      FirstRowsInPlace(ordered, all, hot, cold, limit, n - 1);
    }
    assert |UpTo(ordered, limit)| == n;
    forall i | 0 <= i < n ensures UpTo(ordered, limit)[i] == all[i] {
      FirstRowsInPlace(ordered, all, hot, cold, limit, i);
    }
  }

  lemma MergedFromFirstPages(page: Page, ordered: seq<Item>, all: seq<Item>, hot: seq<Item>, cold: seq<Item>,
                             limit: nat)
    requires TwoStores(all, hot, cold) && MergesFirstPages(page, ordered, hot, cold, limit)
    ensures FromFirstPages(ordered, hot, cold, limit)
  {
    var h, c := FirstPage(hot, limit).items, FirstPage(cold, limit).items;
    PrefixListing(hot, |h|);
    PrefixListing(cold, |c|);
    forall x: Item ensures KeptOf(h, c, x.id) == Some(x) <==> InUnion(x, h, c) {
      MergeOfListings(h, c, x);
    }
  }

  /** Any two stores have a union to compare the page with. */
  lemma {:induction false} UnionExists(hot: seq<Item>, cold: seq<Item>) returns (all: seq<Item>)
    requires StoreListing(hot) && StoreListing(cold) && SameStamps(hot, cold)
    ensures TwoStores(all, hot, cold)
  {
    if cold == [] {
      all := hot;
    } else {
      var init, last := cold[..|cold| - 1], cold[|cold| - 1];
      PrefixListing(cold, |init|);
      assert cold == init + [last];
      var some := UnionExists(hot, init);
      assert forall x :: x in some <==> InUnion(x, hot, init);
      if HasId(hot, last.id) {
        all := some;
      } else {
        forall i | 0 <= i < |some| ensures Keys(some)[i] != KeyOf(last) {
          assert some[i] in some;
          if some[i] in init {
            var j :| 0 <= j < |init| && init[j] == some[i];
            PositionOrder(Keys(cold), true, j, |init|);
          }
        }
        InsertKeepsOrder(some, last);
        all := InsertByKey(some, last);
        forall x, y | x in all && y in all && x.id == y.id ensures x == y {
          assert x == last || InUnion(x, hot, init);
          assert y == last || InUnion(y, hot, init);
        }
      }
    }
  }

  /** They have only one: a union is determined by the two stores. */
  lemma UnionIsUnique(a: seq<Item>, b: seq<Item>, hot: seq<Item>, cold: seq<Item>)
    requires IsUnion(a, hot, cold) && IsUnion(b, hot, cold)
    ensures a == b
  {
    forall k ensures k in Keys(a) <==> k in Keys(b) {
      SameKeys(a, b, hot, cold, k);
      SameKeys(b, a, hot, cold, k);
    }
    ListingUnique(Keys(a), Keys(b), true);
    forall i | 0 <= i < |a| ensures a[i] == b[i] {
      assert a[i] in a && a[i] in b;
      var j :| 0 <= j < |b| && b[j] == a[i];
      PositionOrder(Keys(b), true, i, j);
    }
  }

  lemma SameKeys(a: seq<Item>, b: seq<Item>, hot: seq<Item>, cold: seq<Item>, k: Key)
    requires IsUnion(a, hot, cold) && IsUnion(b, hot, cold)
    ensures k in Keys(a) ==> k in Keys(b)
  {
    if i :| 0 <= i < |a| && Keys(a)[i] == k {
      assert a[i] in a && a[i] in b;
      var j :| 0 <= j < |b| && b[j] == a[i];
      assert Keys(b)[j] == k;
    }
  }

  /** Reading a page from the top: newer rows first, and of rows with one timestamp the one with the later id. */
  lemma PageOrderIs(all: seq<Item>, limit: nat, i: nat, j: nat)
    requires StoreListing(all) && i < j < |FirstPage(all, limit).items|
    ensures var x, y := FirstPage(all, limit).items[i], FirstPage(all, limit).items[j];
            && x.stamp.Some? && y.stamp.Some?
            && (x.stamp.value > y.stamp.value || (x.stamp == y.stamp && InDictionary(y.id, x.id)))
  {
    var x, y := FirstPage(all, limit).items[i], FirstPage(all, limit).items[j];
    assert x == all[i] && y == all[j] && x in all && y in all;
    assert Before(Keys(all)[i], Keys(all)[j], true);
    StringLessIsDictionary(y.id, x.id);
  }

  /** The timestamps have to agree: here the cold copy of a row hides the hot copy and displaces a newer row. */
  lemma DifferentStampsMislead()
    returns (page: Page, ordered: seq<Item>, all: seq<Item>, hot: seq<Item>, cold: seq<Item>)
    ensures StoreListing(hot) && StoreListing(cold) && IsUnion(all, hot, cold)
    ensures MergesFirstPages(page, ordered, hot, cold, 1)
    ensures page != FirstPage(all, 1)
  {
    var a, b, staleA := Item("a", Some(1), 0), Item("b", Some(2), 0), Item("a", Some(3), 1);
    hot, cold, all, page, ordered := [b, a], [staleA], [b, a], Page([staleA], true), [staleA, b];
    assert a in hot && HasId(hot, staleA.id);
    assert FirstPage(hot, 1) == Page([b], true) && FirstPage(cold, 1) == Page([staleA], false);
    forall x: Item ensures KeptOf([b], [staleA], x.id) == Some(x) <==> x in ordered {
      MergeOfListings([b], [staleA], x);
    }
    assert UpTo(ordered, 1) == [staleA];
  }

  /* ---- Walking ---- */

  /** The rows a query with a cursor leaves: those listed strictly after the cursor. */
  function RowsAfter(s: seq<Item>, cursor: Option<Key>): seq<Item> {
    if cursor.None? || s == [] then s
    else if KeyLess(KeyOf(s[0]), cursor.value) then [s[0]] + RowsAfter(s[1..], cursor)
    else RowsAfter(s[1..], cursor)
  }

  lemma {:induction false} RowsAfterAreLast(s: seq<Item>, cursor: Option<Key>) returns (p: nat)
    requires NewestFirst(s)
    ensures p <= |s| && RowsAfter(s, cursor) == s[p..]
    ensures cursor.Some? ==> forall i :: 0 <= i < |s| ==> (p <= i <==> KeyLess(KeyOf(s[i]), cursor.value))
  {
    if cursor.None? || s == [] {
      p := 0;
    } else {
      assert forall i :: 0 <= i < |s| - 1 ==> Keys(s[1..])[i] == Keys(s)[i + 1];
      var q := RowsAfterAreLast(s[1..], cursor);
      if KeyLess(KeyOf(s[0]), cursor.value) {
        p := 0;
        forall i | 0 < i < |s| ensures KeyLess(KeyOf(s[i]), cursor.value) {
          assert Before(Keys(s)[0], Keys(s)[i], true);
          KeyLessTransitive(KeyOf(s[i]), KeyOf(s[0]), cursor.value);
        }
        if |s| > 1 {
          assert KeyLess(KeyOf(s[1..][0]), cursor.value);
        }
        assert s == [s[0]] + s[1..];
      } else {
        p := q + 1;
        forall i | 0 <= i < |s| ensures p <= i <==> KeyLess(KeyOf(s[i]), cursor.value) {
          if i > 0 {
            assert s[1..][i - 1] == s[i];
          }
        }
      }
    }
  }

  lemma SuffixListing(s: seq<Item>, p: nat)
    requires StoreListing(s) && p <= |s|
    ensures StoreListing(s[p..])
  {
    var t := s[p..];
    forall i, j | 0 <= i < j < |t| ensures Before(Keys(t)[i], Keys(t)[j], true) {
      assert Before(Keys(s)[p + i], Keys(s)[p + j], true);
    }
  }

  lemma RowsAfterListing(s: seq<Item>, cursor: Key)
    requires StoreListing(s)
    ensures StoreListing(RowsAfter(s, Some(cursor)))
    ensures forall x :: x in RowsAfter(s, Some(cursor)) <==> x in s && KeyLess(KeyOf(x), cursor)
  {
    var p := RowsAfterAreLast(s, Some(cursor));
    SuffixListing(s, p);
    forall x | x in s && KeyLess(KeyOf(x), cursor) ensures x in s[p..] {
      var i :| 0 <= i < |s| && s[i] == x;
      assert s[p..][i - p] == x;
    }
    forall x | x in s[p..] ensures x in s && KeyLess(KeyOf(x), cursor) {
      var i :| 0 <= i < |s| - p && s[p..][i] == x;
      assert s[p + i] == x;
    }
  }

  /** A cursor cuts both stores and their union at the same place. */
  lemma CursorCutsUnion(all: seq<Item>, hot: seq<Item>, cold: seq<Item>, cursor: Key)
    requires TwoStores(all, hot, cold)
    ensures TwoStores(RowsAfter(all, Some(cursor)), RowsAfter(hot, Some(cursor)), RowsAfter(cold, Some(cursor)))
  {
    RowsAfterListing(all, cursor);
    RowsAfterListing(hot, cursor);
    RowsAfterListing(cold, cursor);
    var hot', cold' := RowsAfter(hot, Some(cursor)), RowsAfter(cold, Some(cursor));
    forall x, h | x in cold' && h in hot && h.id == x.id ensures h in hot' {
      assert KeyOf(h) == KeyOf(x);
    }
    forall x ensures x in RowsAfter(all, Some(cursor)) <==> InUnion(x, hot', cold') {
      assert x in all <==> InUnion(x, hot, cold);
    }
  }

  /** `page` is the merged answer to a query of both stores with this cursor. */
  ghost predicate Answers(page: Page, hot: seq<Item>, cold: seq<Item>, limit: nat, cursor: Option<Key>) {
    exists ordered :: MergesFirstPages(page, ordered, RowsAfter(hot, cursor), RowsAfter(cold, cursor), limit)
  }

  /**
   * A client's walk from a cursor: the next cursor is the last row shown, and the
   * client asks again as long as it is told there is more.
   */
  ghost predicate IsWalk(pages: seq<Page>, hot: seq<Item>, cold: seq<Item>, limit: nat, cursor: Option<Key>) {
    && pages != []
    && Answers(pages[0], hot, cold, limit, cursor)
    && (|pages| > 1 ==>
          && pages[0].hasMore && pages[0].items != []
          && IsWalk(pages[1..], hot, cold, limit, Some(KeyOf(pages[0].items[|pages[0].items| - 1]))))
  }

  function Shown(pages: seq<Page>): seq<Item> {
    if pages == [] then [] else pages[0].items + Shown(pages[1..])
  }

  /** The cursor that stands just before row n. */
  function CursorAt(all: seq<Item>, n: int): Option<Key> {
    if 0 < n <= |all| then Some(KeyOf(all[n - 1])) else None
  }

  /** A query whose cursor stands just before row n of the union is answered from row n on. */
  lemma AnswersFromRow(page: Page, all: seq<Item>, hot: seq<Item>, cold: seq<Item>, limit: nat, n: nat)
    requires TwoStores(all, hot, cold) && (n == 0 || n < |all|)
    requires Answers(page, hot, cold, limit, CursorAt(all, n))
    ensures page == FirstPage(all[n..], limit)
  {
    var cursor := CursorAt(all, n);
    var hot', cold' := RowsAfter(hot, cursor), RowsAfter(cold, cursor);
    CursorLeavesRows(all, hot, cold, n);
    var ordered :| MergesFirstPages(page, ordered, hot', cold', limit);
    MergedPageIsPageOfUnion(page, ordered, all[n..], hot', cold', limit);
  }

  lemma CursorLeavesRows(all: seq<Item>, hot: seq<Item>, cold: seq<Item>, n: nat)
    requires TwoStores(all, hot, cold) && (n == 0 || n < |all|)
    ensures TwoStores(all[n..], RowsAfter(hot, CursorAt(all, n)), RowsAfter(cold, CursorAt(all, n)))
  {
    if n == 0 {
      assert all[0..] == all;
    } else {
      var cursor := KeyOf(all[n - 1]);
      CursorCutsUnion(all, hot, cold, cursor);
      var p := RowsAfterAreLast(all, Some(cursor));
      PositionOrder(Keys(all), true, n - 1, n);
      KeyLessTotal(cursor, cursor);
      assert KeyLess(KeyOf(all[n]), cursor);
      assert p == n;
    }
  }

  ghost predicate AnswersAreRight(all: seq<Item>, hot: seq<Item>, cold: seq<Item>, limit: nat) {
    forall page, n :: (n == 0 || 0 < n < |all|) && Answers(page, hot, cold, limit, CursorAt(all, n)) ==>
      page == FirstPage(all[n..], limit)
  }

  lemma StoresAnswerRight(all: seq<Item>, hot: seq<Item>, cold: seq<Item>, limit: nat)
    requires TwoStores(all, hot, cold)
    ensures AnswersAreRight(all, hot, cold, limit)
  {
    forall page, n | (n == 0 || 0 < n < |all|) && Answers(page, hot, cold, limit, CursorAt(all, n))
      ensures page == FirstPage(all[n..], limit)
    {
      AnswersFromRow(page, all, hot, cold, limit, n);
    }
  }

  lemma FullPage(page: Page, all: seq<Item>, limit: nat, n: nat)
    requires n <= |all| && limit > 0 && page == FirstPage(all[n..], limit) && page.hasMore
    ensures |page.items| == limit && n + limit < |all|
    ensures page.items[limit - 1] == all[n + limit - 1]
    ensures all[n..] == page.items + all[n + limit..]
  {
  }

  /** After a full page, the walk goes on from the row that follows it. */
  lemma WalkStep(pages: seq<Page>, all: seq<Item>, hot: seq<Item>, cold: seq<Item>, limit: nat, n: nat)
    requires limit > 0 && n <= |all| && pages != [] && pages[0] == FirstPage(all[n..], limit)
    requires IsWalk(pages, hot, cold, limit, CursorAt(all, n)) && |pages| > 1
    ensures pages[0].hasMore && n + limit < |all|
    ensures IsWalk(pages[1..], hot, cold, limit, CursorAt(all, n + limit))
  {
    FullPage(pages[0], all, limit, n);
  }

  /** Some pages show the rows from n on without a gap, and the last of them says truly whether there are more. */
  ghost predicate ShowsFrom(pages: seq<Page>, all: seq<Item>, n: nat)
    requires n <= |all|
  {
    && pages != []
    && Shown(pages) <= all[n..]
    && (pages[|pages| - 1].hasMore <==> |Shown(pages)| < |all| - n)
    && |pages| <= Max(1, |all| - n)
  }

  lemma ShowsOneMorePage(pages: seq<Page>, all: seq<Item>, limit: nat, n: nat)
    requires limit > 0 && n + limit < |all| && |pages| > 1
    requires pages[0] == FirstPage(all[n..], limit) && pages[0].hasMore
    requires ShowsFrom(pages[1..], all, n + limit)
    ensures ShowsFrom(pages, all, n)
  {
    FullPage(pages[0], all, limit, n);
    assert Shown(pages) == pages[0].items + Shown(pages[1..]);
    assert pages[1..][|pages| - 2] == pages[|pages| - 1];
  }

  lemma ShowsLastPage(pages: seq<Page>, all: seq<Item>, limit: nat, n: nat)
    requires limit > 0 && n <= |all| && |pages| == 1 && pages[0] == FirstPage(all[n..], limit)
    ensures ShowsFrom(pages, all, n)
  {
    assert Shown(pages[1..]) == [];
  }

  lemma WalkStepShows(pages: seq<Page>, all: seq<Item>, limit: nat, n: nat)
    requires limit > 0 && n <= |all| && pages != [] && pages[0] == FirstPage(all[n..], limit)
    requires |pages| > 1 ==> pages[0].hasMore && n + limit < |all| && ShowsFrom(pages[1..], all, n + limit)
    ensures ShowsFrom(pages, all, n)
  {
    if |pages| > 1 {
      ShowsOneMorePage(pages, all, limit, n);
    } else {
      ShowsLastPage(pages, all, limit, n);
    }
  }

  lemma {:induction false} WalkFromRow(pages: seq<Page>, all: seq<Item>, hot: seq<Item>, cold: seq<Item>, limit: nat,
                                       n: nat)
    requires AnswersAreRight(all, hot, cold, limit) && limit > 0 && (n == 0 || n < |all|)
    requires IsWalk(pages, hot, cold, limit, CursorAt(all, n))
    ensures ShowsFrom(pages, all, n)
    decreases |pages|
  {
    hide AnswersAreRight, IsWalk, ShowsFrom;
    FirstPageIsRight(pages, all, hot, cold, limit, n);
    if |pages| > 1 {
      WalkStep(pages, all, hot, cold, limit, n);
      WalkFromRow(pages[1..], all, hot, cold, limit, n + limit);
    }
    WalkStepShows(pages, all, limit, n);
  }

  lemma FirstPageIsRight(pages: seq<Page>, all: seq<Item>, hot: seq<Item>, cold: seq<Item>, limit: nat, n: nat)
    requires AnswersAreRight(all, hot, cold, limit) && (n == 0 || n < |all|)
    requires IsWalk(pages, hot, cold, limit, CursorAt(all, n))
    ensures pages != [] && pages[0] == FirstPage(all[n..], limit)
  {
  }

  /**
   * A walk shows the rows of the union one after the other, none twice and none
   * left out, and is told there is more exactly while it has not seen them all;
   * so it ends, after no more pages than there are rows.
   */
  lemma WalkVisitsEveryRowOnce(pages: seq<Page>, all: seq<Item>, hot: seq<Item>, cold: seq<Item>, limit: nat)
    requires TwoStores(all, hot, cold) && limit > 0 && IsWalk(pages, hot, cold, limit, None)
    ensures Shown(pages) <= all
    ensures pages[|pages| - 1].hasMore <==> Shown(pages) != all
    ensures |pages| <= Max(1, |all|)
  {
    StoresAnswerRight(all, hot, cold, limit);
    WalkFromRow(pages, all, hot, cold, limit, 0);
    assert all[0..] == all;
  }
}
