/**
 * Export of old outbox events. Each run copies the oldest finished events after the
 * last one of the run before, together with their delivery attempts, which it looks
 * up for a few thousand events at a time.
 */
module HistoryExport {
  import opened Common
  import opened Ordering

  /** `isTerminal`: published, given up or cancelled. `body` is the rest of the row. */
  datatype Event = Event(id: string, stamp: Time, isTerminal: bool, body: Id)

  datatype Attempt = Attempt(id: Id, event: string, number: int, body: Id)

  /** What a run writes, and the key of its last event for the next run. */
  datatype Batch = Batch(events: seq<Event>, attempts: seq<Attempt>, resumeAfter: Option<Key>)

  const CHUNK_SIZE: nat := 5000

  function KeyOf(e: Event): Key {
    Key(e.stamp, e.id)
  }

  function Keys(es: seq<Event>): (keys: seq<Key>)
    ensures |keys| == |es| && forall i :: 0 <= i < |es| ==> keys[i] == KeyOf(es[i])
  {
    seq(|es|, i requires 0 <= i < |es| => KeyOf(es[i]))
  }

  /** Events from old to new, none twice. */
  ghost predicate OldestFirst(es: seq<Event>) {
    Listed(Keys(es), false)
  }

  function Ids(es: seq<Event>): (ids: seq<string>)
    ensures |ids| == |es| && forall i :: 0 <= i < |es| ==> ids[i] == es[i].id
  {
    seq(|es|, i requires 0 <= i < |es| => es[i].id)
  }

  /* ---- What a run selects ---- */

  predicate IsEligible(e: Event, before: Time) {
    e.isTerminal && e.stamp < before
  }

  function Eligible(table: seq<Event>, before: Time): (r: seq<Event>)
    ensures forall e :: e in r <==> e in table && IsEligible(e, before)
  {
    if table == [] then []
    else
      var last, rest := table[|table| - 1], table[..|table| - 1];
      assert table == rest + [last];
      Eligible(rest, before) + if IsEligible(last, before) then [last] else []
  }

  predicate IsAfter(e: Event, after: Option<Key>) {
    after.None? || KeyLess(after.value, KeyOf(e))
  }

  function After(rows: seq<Event>, after: Option<Key>): seq<Event> {
    if rows == [] then []
    else After(rows[..|rows| - 1], after) + if IsAfter(rows[|rows| - 1], after) then [rows[|rows| - 1]] else []
  }

  function Take<T>(s: seq<T>, n: nat): seq<T> {
    if |s| <= n then s else s[..n]
  }

  function AttemptsOf(attempts: seq<Attempt>, ids: seq<string>): seq<Attempt> {
    if attempts == [] then []
    else
      AttemptsOf(attempts[..|attempts| - 1], ids)
      + if attempts[|attempts| - 1].event in ids then [attempts[|attempts| - 1]] else []
  }

  /** Attempts looked up for one chunk of events after the other. */
  function AttemptsByChunk(attempts: seq<Attempt>, ids: seq<string>, size: nat): seq<Attempt>
    requires size > 0
    decreases |ids|
  {
    if ids == [] then []
    else if |ids| <= size then AttemptsOf(attempts, ids)
    else AttemptsOf(attempts, ids[..size]) + AttemptsByChunk(attempts, ids[size..], size)
  }

  function ResumeKey(rows: seq<Event>): Option<Key> {
    if rows == [] then None else Some(KeyOf(rows[|rows| - 1]))
  }

  function Exported(table: seq<Event>, attempts: seq<Attempt>, before: Time, limit: nat, after: Option<Key>): Batch {
    var rows := Take(After(Eligible(table, before), after), limit);
    Batch(rows, AttemptsByChunk(attempts, Ids(rows), CHUNK_SIZE), ResumeKey(rows))
  }

  /** One run. The table is read in the order of its keys, attempts in the order of event and number. */
  method ExportBatch(table: seq<Event>, attempts: seq<Attempt>, before: Time, limit: nat, after: Option<Key>)
    returns (b: Batch)
    ensures b == Exported(table, attempts, before, limit, after)
  {
    var rows := SelectRows(table, before, limit, after);
    var eventIds: seq<string> := [];
    var resumeAfter: Option<Key> := None;
    for i := 0 to |rows|
      invariant eventIds == Ids(rows[..i]) && resumeAfter == ResumeKey(rows[..i])
    {
      eventIds := eventIds + [rows[i].id];
      resumeAfter := Some(KeyOf(rows[i]));
      assert rows[..i + 1] == rows[..i] + [rows[i]];
    }
    assert rows[..|rows|] == rows;
    var copied := CopyAttempts(attempts, eventIds);
    b := Batch(rows, copied, resumeAfter);
  }

  method CopyAttempts(attempts: seq<Attempt>, eventIds: seq<string>) returns (copied: seq<Attempt>)
    ensures copied == AttemptsByChunk(attempts, eventIds, CHUNK_SIZE)
  {
    hide AttemptsByChunk, AttemptsOf;
    copied := [];
    var offset := 0;
    assert eventIds[0..] == eventIds;
    while offset < |eventIds|
      invariant offset <= |eventIds|
      invariant copied + AttemptsByChunk(attempts, eventIds[offset..], CHUNK_SIZE) ==
                AttemptsByChunk(attempts, eventIds, CHUNK_SIZE)
    {
      var end := Min(offset + CHUNK_SIZE, |eventIds|);
      var found := FindAttempts(attempts, eventIds[offset..end]);
      ChunkStep(attempts, eventIds, offset, end);
      copied := copied + found;
      offset := end;
    }
    assert AttemptsByChunk(attempts, eventIds[offset..], CHUNK_SIZE) == [] by {
      NoChunks(attempts, eventIds[offset..]);
    }
  }

  lemma NoChunks(attempts: seq<Attempt>, ids: seq<string>)
    requires ids == []
    ensures AttemptsByChunk(attempts, ids, CHUNK_SIZE) == []
  {
  }

  lemma ChunkStep(attempts: seq<Attempt>, ids: seq<string>, offset: nat, end: nat)
    requires offset < |ids| && end == Min(offset + CHUNK_SIZE, |ids|)
    ensures AttemptsByChunk(attempts, ids[offset..], CHUNK_SIZE)
         == AttemptsOf(attempts, ids[offset..end]) + AttemptsByChunk(attempts, ids[end..], CHUNK_SIZE)
  {
    hide AttemptsOf;
    var rest := ids[offset..];
    if |rest| <= CHUNK_SIZE {
      assert rest == ids[offset..end] && ids[end..] == [];
    } else {
      assert rest[..CHUNK_SIZE] == ids[offset..end] && rest[CHUNK_SIZE..] == ids[end..];
    }
  }

  method FindAttempts(attempts: seq<Attempt>, ids: seq<string>) returns (found: seq<Attempt>)
    ensures found == AttemptsOf(attempts, ids)
  {
    found := [];
    for i := 0 to |attempts|
      invariant found == AttemptsOf(attempts[..i], ids)
    {
      assert attempts[..i + 1][..i] == attempts[..i];
      if attempts[i].event in ids {
        found := found + [attempts[i]];
      }
    }
    assert attempts[..|attempts|] == attempts;
  }

  lemma SelectionGrows(rows: seq<Event>, e: Event, before: Time, after: Option<Key>)
    ensures After(Eligible(rows + [e], before), after)
         == After(Eligible(rows, before), after) + if IsEligible(e, before) && IsAfter(e, after) then [e] else []
  {
    assert (rows + [e])[..|rows|] == rows;
    var found := Eligible(rows, before);
    assert (found + [e])[..|found|] == found;
    if IsEligible(e, before) {
      assert Eligible(rows + [e], before) == found + [e];
    } else {
      assert Eligible(rows + [e], before) == found;
    }
  }

  lemma NothingSelected(rows: seq<Event>, before: Time, after: Option<Key>)
    requires rows == []
    ensures After(Eligible(rows, before), after) == []
  {
  }

  method SelectRows(table: seq<Event>, before: Time, limit: nat, after: Option<Key>) returns (rows: seq<Event>)
    ensures rows == Take(After(Eligible(table, before), after), limit)
  {
    hide After, Eligible, Take;
    rows := [];
    assert After(Eligible(table[..0], before), after) == [] by { NothingSelected(table[..0], before, after); }
    for i := 0 to |table|
      invariant rows == After(Eligible(table[..i], before), after)
    {
      assert table[..i + 1] == table[..i] + [table[i]];
      SelectionGrows(table[..i], table[i], before, after);
      if IsEligible(table[i], before) && IsAfter(table[i], after) {
        rows := rows + [table[i]];
      }
    }
    assert table[..|table|] == table;
    rows := Take(rows, limit);
  }

  /* ---- A run takes up where the one before stopped ---- */

  lemma {:induction false} EligibleKeepsOrder(table: seq<Event>, before: Time)
    requires OldestFirst(table)
    ensures OldestFirst(Eligible(table, before))
  {
    if table != [] {
      var last, rest := table[|table| - 1], table[..|table| - 1];
      PrefixKeepsOrder(table, |table| - 1);
      EligibleKeepsOrder(rest, before);
      var r := Eligible(table, before);
      forall i, j | 0 <= i < j < |r| ensures Before(Keys(r)[i], Keys(r)[j], false) {
        var m := |Eligible(rest, before)|;
        if j < m {
          assert Before(Keys(Eligible(rest, before))[i], Keys(Eligible(rest, before))[j], false);
        } else {
          assert r[i] in Eligible(rest, before);
          var k :| 0 <= k < |rest| && rest[k] == r[i];
          assert Before(Keys(table)[k], Keys(table)[|table| - 1], false);
        }
      }
    }
  }

  lemma PrefixKeepsOrder(es: seq<Event>, n: nat)
    requires OldestFirst(es) && n <= |es|
    ensures OldestFirst(es[..n])
  {
    forall i, j | 0 <= i < j < n ensures Before(Keys(es[..n])[i], Keys(es[..n])[j], false) {
      assert Before(Keys(es)[i], Keys(es)[j], false);
    }
  }

  /** Rows after the n-th key are the rows from n on. */
  lemma {:induction false} AfterIsRest(all: seq<Event>, n: nat)
    requires OldestFirst(all) && 0 < n <= |all|
    ensures After(all, Some(KeyOf(all[n - 1]))) == all[n..]
    decreases |all|
  {
    var cursor := Some(KeyOf(all[n - 1]));
    var m := |all| - 1;
    PositionOrder(Keys(all), false, n - 1, m);
    KeyLessTotal(KeyOf(all[m]), KeyOf(all[m]));
    if n == |all| {
      NoneAfter(all[..m], cursor.value) by {
        forall i | 0 <= i < m ensures !KeyLess(cursor.value, KeyOf(all[..m][i])) {
          PositionOrder(Keys(all), false, i, m);
          KeyLessTotal(Keys(all)[i], Keys(all)[m]);
        }
      }
    } else {
      PrefixKeepsOrder(all, m);
      AfterIsRest(all[..m], n);
      assert all[..m][n - 1] == all[n - 1];
      assert all[n..] == all[..m][n..] + [all[m]];
    }
  }

  lemma {:induction false} NoneAfter(rows: seq<Event>, cursor: Key)
    requires forall i :: 0 <= i < |rows| ==> !KeyLess(cursor, KeyOf(rows[i]))
    ensures After(rows, Some(cursor)) == []
  {
    if rows != [] {
      NoneAfter(rows[..|rows| - 1], cursor);
    }
  }

  lemma {:induction false} AllAfterNothing(rows: seq<Event>)
    ensures After(rows, None) == rows
  {
    if rows != [] {
      AllAfterNothing(rows[..|rows| - 1]);
      assert rows == rows[..|rows| - 1] + [rows[|rows| - 1]];
    }
  }

  /* ---- Attempts ---- */

  /** Looking attempts up in chunks finds the same ones as looking them all up at once. */
  lemma {:induction false} ChunksFindTheSame(attempts: seq<Attempt>, ids: seq<string>, size: nat)
    requires size > 0 && Distinct(ids)
    ensures multiset(AttemptsByChunk(attempts, ids, size)) == multiset(AttemptsOf(attempts, ids))
    decreases |ids|
  {
    if ids == [] {
      NoIdsNoAttempts(attempts);
    } else if |ids| > size {
      var head, tail := ids[..size], ids[size..];
      ChunksFindTheSame(attempts, tail, size);
      assert ids == head + tail;
      AttemptsSplit(attempts, head, tail);
    }
  }

  lemma {:induction false} NoIdsNoAttempts(attempts: seq<Attempt>)
    ensures AttemptsOf(attempts, []) == []
  {
    if attempts != [] {
      NoIdsNoAttempts(attempts[..|attempts| - 1]);
    }
  }

  lemma {:induction false} AttemptsSplit(attempts: seq<Attempt>, a: seq<string>, b: seq<string>)
    requires forall id :: id in a ==> id !in b
    ensures multiset(AttemptsOf(attempts, a + b)) ==
            multiset(AttemptsOf(attempts, a)) + multiset(AttemptsOf(attempts, b))
  {
    if attempts != [] {
      AttemptsSplit(attempts[..|attempts| - 1], a, b);
    }
  }

  /* ---- A series of runs ---- */

  /** Runs on an unchanged store, each resumed after the last event of the one before. */
  ghost predicate IsSeries(batches: seq<Batch>, table: seq<Event>, attempts: seq<Attempt>, before: Time, limit: nat,
                           after: Option<Key>)
  {
    && batches != []
    && batches[0] == Exported(table, attempts, before, limit, after)
    && (|batches| > 1 ==>
          && batches[0].resumeAfter.Some?
          && IsSeries(batches[1..], table, attempts, before, limit, batches[0].resumeAfter))
  }

  function AllEvents(batches: seq<Batch>): seq<Event> {
    if batches == [] then [] else batches[0].events + AllEvents(batches[1..])
  }

  function AllAttempts(batches: seq<Batch>): seq<Attempt> {
    if batches == [] then [] else batches[0].attempts + AllAttempts(batches[1..])
  }

  function CursorAt(all: seq<Event>, n: nat): Option<Key>
    requires n <= |all|
  {
    if n == 0 then None else Some(KeyOf(all[n - 1]))
  }

  /** A run resumed just before row n copies the next rows from n on. */
  lemma RunFromRow(table: seq<Event>, attempts: seq<Attempt>, before: Time, limit: nat, n: nat)
    requires OldestFirst(table) && n <= |Eligible(table, before)|
    ensures var all := Eligible(table, before);
            Exported(table, attempts, before, limit, CursorAt(all, n)).events == Take(all[n..], limit)
  {
    var all := Eligible(table, before);
    EligibleKeepsOrder(table, before);
    if n == 0 {
      AllAfterNothing(all);
    } else {
      AfterIsRest(all, n);
    }
  }

  /** Every batch carries the attempts of its own events, as often as the table has them, and no others. */
  ghost predicate OwnAttempts(batches: seq<Batch>, attempts: seq<Attempt>) {
    forall b :: b in batches ==> HasAttempts(b.attempts, attempts, Ids(b.events))
  }

  ghost predicate HasAttempts(copied: seq<Attempt>, attempts: seq<Attempt>, ids: seq<string>) {
    forall a :: multiset(copied)[a] == if a.event in ids then multiset(attempts)[a] else 0
  }

  lemma {:induction false} AttemptsAreThose(attempts: seq<Attempt>, ids: seq<string>)
    ensures HasAttempts(AttemptsOf(attempts, ids), attempts, ids)
  {
    if attempts != [] {
      var last, rest := attempts[|attempts| - 1], attempts[..|attempts| - 1];
      AttemptsAreThose(rest, ids);
      assert attempts == rest + [last];
    }
  }

  lemma OwnByMultiset(copied: seq<Attempt>, attempts: seq<Attempt>, ids: seq<string>)
    requires multiset(copied) == multiset(AttemptsOf(attempts, ids))
    ensures HasAttempts(copied, attempts, ids)
  {
    AttemptsAreThose(attempts, ids);
  }

  /** From old to new, and of events with one timestamp the one with the earlier id first. */
  ghost predicate InOrderOfAge(es: seq<Event>) {
    forall i, j :: 0 <= i < j < |es| ==>
      es[i].stamp < es[j].stamp || (es[i].stamp == es[j].stamp && InDictionary(es[i].id, es[j].id))
  }

  lemma OldestFirstIsByAge(es: seq<Event>)
    ensures OldestFirst(es) <==> InOrderOfAge(es)
  {
    forall i, j | 0 <= i < j < |es| {
      StringLessIsDictionary(es[i].id, es[j].id);
    }
    if InOrderOfAge(es) {
      forall i, j | 0 <= i < j < |es| ensures Before(Keys(es)[i], Keys(es)[j], false) {
      }
    }
    if OldestFirst(es) {
      forall i, j | 0 <= i < j < |es|
        ensures es[i].stamp < es[j].stamp || (es[i].stamp == es[j].stamp && InDictionary(es[i].id, es[j].id))
      {
        assert Before(Keys(es)[i], Keys(es)[j], false);
      }
    }
  }

  /** The batches from row n on: what they hold, whether it is everything, and how many they are. */
  ghost predicate Covers(batches: seq<Batch>, all: seq<Event>, attempts: seq<Attempt>, limit: nat, n: nat)
    requires n <= |all|
  {
    && batches != []
    && AllEvents(batches) <= all[n..]
    && (|batches[|batches| - 1].events| < limit ==> AllEvents(batches) == all[n..])
    && |batches| <= |all| - n + 1
    && OwnAttempts(batches, attempts)
    && multiset(AllAttempts(batches)) == multiset(AttemptsOf(attempts, Ids(AllEvents(batches))))
  }

  lemma IdsDistinct(es: seq<Event>)
    requires forall i, j :: 0 <= i < j < |es| ==> es[i].id != es[j].id
    ensures Distinct(Ids(es))
  {
  }

  lemma {:induction false} SeriesFromRow(batches: seq<Batch>, table: seq<Event>, attempts: seq<Attempt>, before: Time,
                                         limit: nat, n: nat)
    requires OldestFirst(table) && limit > 0 && n <= |Eligible(table, before)|
    requires forall i, j ::
             0 <= i < j < |Eligible(table, before)| ==> Eligible(table, before)[i].id != Eligible(table, before)[j].id
    requires IsSeries(batches, table, attempts, before, limit, CursorAt(Eligible(table, before), n))
    ensures Covers(batches, Eligible(table, before), attempts, limit, n)
    decreases |batches|
  {
    hide Covers, AttemptsOf, Exported, Eligible, Take;
    var all := Eligible(table, before);
    FirstBatch(batches[0], table, attempts, before, limit, n);
    if |batches| > 1 {
      SeriesFromRow(batches[1..], table, attempts, before, limit, n + |batches[0].events|);
    }
    CoverStep(batches, all, attempts, limit, n);
  }

  lemma FirstBatch(b: Batch, table: seq<Event>, attempts: seq<Attempt>, before: Time, limit: nat, n: nat)
    requires OldestFirst(table) && n <= |Eligible(table, before)|
    requires forall i, j ::
             0 <= i < j < |Eligible(table, before)| ==> Eligible(table, before)[i].id != Eligible(table, before)[j].id
    requires b == Exported(table, attempts, before, limit, CursorAt(Eligible(table, before), n))
    ensures var all := Eligible(table, before);
            && b.events == Take(all[n..], limit) && n + |b.events| <= |all|
            && multiset(b.attempts) == multiset(AttemptsOf(attempts, Ids(b.events)))
            && (b.resumeAfter.Some? ==> b.events != [] && b.resumeAfter == CursorAt(all, n + |b.events|))
  {
    hide AttemptsOf, AttemptsByChunk, After, Eligible, OldestFirst;
    var all := Eligible(table, before);
    RunFromRow(table, attempts, before, limit, n);
    TakeIsPrefix(all[n..], limit);
    ChunksFindTheSame(attempts, Ids(b.events), CHUNK_SIZE) by {
      IdsDistinct(b.events);
    }
    if b.events != [] {
      assert b.events[|b.events| - 1] == all[n + |b.events| - 1];
    }
  }

  lemma CoverStep(batches: seq<Batch>, all: seq<Event>, attempts: seq<Attempt>, limit: nat, n: nat)
    requires batches != [] && limit > 0 && n <= |all|
    requires forall i, j :: 0 <= i < j < |all| ==> all[i].id != all[j].id
    requires batches[0].events == Take(all[n..], limit)
    requires multiset(batches[0].attempts) == multiset(AttemptsOf(attempts, Ids(batches[0].events)))
    requires |batches| > 1 ==>
             batches[0].events != [] && Covers(batches[1..], all, attempts, limit, n + |batches[0].events|)
    ensures Covers(batches, all, attempts, limit, n)
  {
    hide AttemptsOf, Take;
    assert |batches[0].events| <= |all| - n && batches[0].events <= all[n..] by { TakeIsPrefix(all[n..], limit); }
    CoverEvents(batches, all, attempts, limit, n);
    if |batches| > 1 {
      assert multiset(AllAttempts(batches[1..])) == multiset(AttemptsOf(attempts, Ids(AllEvents(batches[1..]))));
    } else {
      assert batches[1..] == [] && Ids([]) == [];
      NoIdsNoAttempts(attempts);
    }
    assert OwnAttempts(batches, attempts) by {
      OwnByMultiset(batches[0].attempts, attempts, Ids(batches[0].events));
      assert batches == [batches[0]] + batches[1..];
    }
    hide Covers, OwnAttempts;
    CoverAttempts(batches, all, attempts, n);
    CoversIs(batches, all, attempts, limit, n);
  }

  lemma CoversIs(batches: seq<Batch>, all: seq<Event>, attempts: seq<Attempt>, limit: nat, n: nat)
    requires n <= |all| && batches != [] && AllEvents(batches) <= all[n..]
    requires |batches[|batches| - 1].events| < limit ==> AllEvents(batches) == all[n..]
    requires |batches| <= |all| - n + 1 && OwnAttempts(batches, attempts)
    requires multiset(AllAttempts(batches)) == multiset(AttemptsOf(attempts, Ids(AllEvents(batches))))
    ensures Covers(batches, all, attempts, limit, n)
  {
  }

  lemma CoverAttempts(batches: seq<Batch>, all: seq<Event>, attempts: seq<Attempt>, n: nat)
    requires n <= |all| && batches != [] && AllEvents(batches) <= all[n..]
    requires forall i, j :: 0 <= i < j < |all| ==> all[i].id != all[j].id
    requires multiset(batches[0].attempts) == multiset(AttemptsOf(attempts, Ids(batches[0].events)))
    requires multiset(AllAttempts(batches[1..])) == multiset(AttemptsOf(attempts, Ids(AllEvents(batches[1..]))))
    ensures multiset(AllAttempts(batches)) == multiset(AttemptsOf(attempts, Ids(AllEvents(batches))))
  {
    hide AttemptsOf;
    var rows, rest := batches[0].events, AllEvents(batches[1..]);
    assert AllEvents(batches) == rows + rest && AllAttempts(batches) == batches[0].attempts + AllAttempts(batches[1..]);
    assert Ids(rows + rest) == Ids(rows) + Ids(rest);
    SplitAttempts(all, rows, rest, attempts, n);
  }

  lemma TakeIsPrefix(s: seq<Event>, n: nat)
    ensures Take(s, n) <= s && |Take(s, n)| <= n && (|Take(s, n)| < n ==> Take(s, n) == s)
  {
  }

  lemma CoverEvents(batches: seq<Batch>, all: seq<Event>, attempts: seq<Attempt>, limit: nat, n: nat)
    requires batches != [] && limit > 0 && n <= |all|
    requires batches[0].events == Take(all[n..], limit) && |batches[0].events| <= |all| - n
    requires |batches| > 1 ==>
             batches[0].events != [] && Covers(batches[1..], all, attempts, limit, n + |batches[0].events|)
    ensures AllEvents(batches) <= all[n..]
    ensures |batches[|batches| - 1].events| < limit ==> AllEvents(batches) == all[n..]
    ensures |batches| <= |all| - n + 1
  {
    hide AttemptsOf, AllAttempts, OwnAttempts;
    var rows := batches[0].events;
    TakeIsPrefix(all[n..], limit);
    if |batches| == 1 {
      assert AllEvents(batches[1..]) == [];
    } else {
      assert all[n..] == rows + all[n + |rows|..];
      assert batches[1..][|batches| - 2] == batches[|batches| - 1];
    }
  }

  lemma SplitAttempts(all: seq<Event>, rows: seq<Event>, rest: seq<Event>, attempts: seq<Attempt>, n: nat)
    requires n <= |all| && rows + rest <= all[n..]
    requires forall i, j :: 0 <= i < j < |all| ==> all[i].id != all[j].id
    ensures multiset(AttemptsOf(attempts, Ids(rows) + Ids(rest)))
         == multiset(AttemptsOf(attempts, Ids(rows))) + multiset(AttemptsOf(attempts, Ids(rest)))
  {
    forall id | id in Ids(rows) ensures id !in Ids(rest) {
      var i :| 0 <= i < |rows| && rows[i].id == id;
      forall j | 0 <= j < |rest| ensures rest[j].id != id {
        assert (rows + rest)[i] == all[n + i] && (rows + rest)[|rows| + j] == all[n + |rows| + j];
      }
    }
    AttemptsSplit(attempts, Ids(rows), Ids(rest));
  }

  /**
   * Resumed runs cut the finished events from before the time into batches: oldest
   * first, no event twice, each batch with exactly its attempts. A run that comes
   * back short was the last one needed, and there are at most as many runs as
   * events, and one.
   */
  lemma SeriesPartitions(batches: seq<Batch>, table: seq<Event>, attempts: seq<Attempt>, before: Time, limit: nat)
    requires InOrderOfAge(table) && limit > 0
    requires forall i, j ::
             0 <= i < j < |Eligible(table, before)| ==> Eligible(table, before)[i].id != Eligible(table, before)[j].id
    requires IsSeries(batches, table, attempts, before, limit, None)
    ensures InOrderOfAge(AllEvents(batches))
    ensures forall e :: e in AllEvents(batches) ==> e in table && e.isTerminal && e.stamp < before
    ensures |batches[|batches| - 1].events| < limit ==>
              forall e :: e in table && e.isTerminal && e.stamp < before ==> e in AllEvents(batches)
    ensures forall b :: b in batches ==> |b.events| <= limit
    ensures |batches| <= |Eligible(table, before)| + 1
    ensures OwnAttempts(batches, attempts)
    ensures HasAttempts(AllAttempts(batches), attempts, Ids(AllEvents(batches)))
  {
    hide InOrderOfAge, OldestFirst, OwnAttempts, AttemptsOf, Eligible, IsSeries, AllEvents, AllAttempts, HasAttempts;
    var all := Eligible(table, before);
    OldestFirstIsByAge(table);
    EligibleKeepsOrder(table, before);
    SeriesFromRow(batches, table, attempts, before, limit, 0);
    assert all[0..] == all;
    OldestFirstIsByAge(all);
    PrefixIsByAge(all, |AllEvents(batches)|);
    assert AllEvents(batches) == all[..|AllEvents(batches)|];
    forall e | e in AllEvents(batches) ensures e in all {
      var i :| 0 <= i < |AllEvents(batches)| && AllEvents(batches)[i] == e;
      assert all[i] == e;
    }
    OwnByMultiset(AllAttempts(batches), attempts, Ids(AllEvents(batches)));
    SeriesKeepsLimit(batches, table, attempts, before, limit, None);
  }

  lemma PrefixIsByAge(all: seq<Event>, n: nat)
    requires InOrderOfAge(all) && n <= |all|
    ensures InOrderOfAge(all[..n])
  {
  }

  lemma {:induction false} SeriesKeepsLimit(batches: seq<Batch>, table: seq<Event>, attempts: seq<Attempt>,
                                            before: Time,
                                            limit: nat, after: Option<Key>)
    requires IsSeries(batches, table, attempts, before, limit, after)
    ensures forall b :: b in batches ==> |b.events| <= limit
    decreases |batches|
  {
    hide Eligible, After, AttemptsByChunk, Take;
    if batches != [] {
      TakeIsPrefix(After(Eligible(table, before), after), limit);
      if |batches| > 1 {
        SeriesKeepsLimit(batches[1..], table, attempts, before, limit, batches[0].resumeAfter);
      }
      assert batches == [batches[0]] + batches[1..];
    }
  }
}
