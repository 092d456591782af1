/**
 * Removal of an archived batch from the hot database. A run compares the hot rows
 * with the archived ones, deletes them and leaves one audit record, all in one
 * transaction. A run that finds nothing hot checks the audit of the run before.
 */
module HistoryOffload {
  import opened Common
  import opened HistoryExport

  /** An event with the audit record it was published with. */
  datatype Row = Row(event: HistoryExport.Event, audit: Id)

  datatype HotRow = HotRow(row: Row, isLocked: bool)

  datatype Snapshot = Snapshot(events: seq<Row>, attempts: seq<Attempt>)

  /** What manifest and receipt say: hashes of the batch and of its encrypted copy, and when it was imported. */
  datatype Binding = Binding(batch: Id, plain: Id, cipher: Id, importedAt: Id, eventCount: nat, attemptCount: nat)

  /** The record of an offload. */
  datatype Audit = Audit(batch: Id, plain: Id, cipher: Id, importedAt: Id, eventCount: nat, attemptCount: nat)

  datatype Db = Db(
    events: map<string, HotRow>, attempts: map<Id, Attempt>, audits: map<Id, Audit>,
    originals: set<Id>, referenced: set<string>)

  datatype Error =
    | AuditsMissing | StillReferenced | PartlyOffloaded | NoUniqueAudit | AttemptsDiffer | EventLocked | EventChanged
    | EvidenceMissing | AuditWhileHot

  datatype Verdict = AlreadyOffloaded | Validated | Ready

  const DELETE_CHUNK: nat := 500

  function EventIds(s: Snapshot): (ids: seq<string>)
    ensures |ids| == |s.events| && forall i :: 0 <= i < |ids| ==> ids[i] == s.events[i].event.id
  {
    seq(|s.events|, i requires 0 <= i < |s.events| => s.events[i].event.id)
  }

  /** What loading a batch file has checked against its manifest. */
  ghost predicate Loaded(s: Snapshot, b: Binding) {
    && s.events != [] && Distinct(EventIds(s)) && Distinct(s.attempts)
    && (forall r :: r in s.events ==> r.event.isTerminal)
    && (forall a :: a in s.attempts ==> a.event in EventIds(s))
    && b.eventCount == |s.events| && b.attemptCount == |s.attempts|
  }

  /* ---- The checks of a run ---- */

  function HeldEvents(db: Db, s: Snapshot): set<string> {
    set id | id in db.events && id in EventIds(s)
  }

  function HeldAttempts(db: Db, s: Snapshot): set<Id> {
    set a | a in db.attempts && db.attempts[a].event in EventIds(s)
  }

  function HeldAttemptRows(db: Db, s: Snapshot): set<Attempt> {
    set a | a in db.attempts && db.attempts[a].event in EventIds(s) :: db.attempts[a]
  }

  function OriginalAudits(s: Snapshot): set<Id> {
    set r | r in s.events :: r.audit
  }

  /** A count of zero reads as minus one and then equals no count. */
  function OrMinusOne(n: nat): int {
    if n == 0 then -1 else n
  }

  predicate MatchesBinding(a: Audit, b: Binding) {
    && a.plain == b.plain && a.cipher == b.cipher && a.importedAt == b.importedAt
    && OrMinusOne(a.eventCount) == b.eventCount && OrMinusOne(a.attemptCount) == b.attemptCount
  }

  function AuditsOf(db: Db, batch: Id): set<Id> {
    set a | a in db.audits && db.audits[a].batch == batch
  }

  function MatchingAudits(db: Db, b: Binding): set<Id> {
    set a | a in db.audits && db.audits[a].batch == b.batch && MatchesBinding(db.audits[a], b)
  }

  /** The first event that is locked or no longer as archived. */
  function FirstDifference(db: Db, events: seq<Row>): Option<Error>
    requires forall r :: r in events ==> r.event.id in db.events
  {
    if events == [] then None
    else
      var hot := db.events[events[0].event.id];
      if hot.isLocked then Some(EventLocked)
      else if hot.row != events[0] then Some(EventChanged)
      else FirstDifference(db, events[1..])
  }

  predicate HoldsAll(db: Db, s: Snapshot) {
    forall r :: r in s.events ==> r.event.id in db.events
  }

  /** Checks on a batch all of which is hot. */
  function CheckHot(db: Db, s: Snapshot, b: Binding, execute: bool, hasEvidence: bool): Result<Verdict, Error>
    requires HoldsAll(db, s)
  {
    if |HeldAttempts(db, s)| != |s.attempts| then Failure(AttemptsDiffer)
    else if FirstDifference(db, s.events).Some? then Failure(FirstDifference(db, s.events).value)
    else if HeldAttemptRows(db, s) != (set a | a in s.attempts) then Failure(AttemptsDiffer)
    else if !execute then Success(Validated)
    else if !hasEvidence then Failure(EvidenceMissing)
    else if AuditsOf(db, b.batch) != {} then Failure(AuditWhileHot)
    else Success(Ready)
  }

  function Check(db: Db, s: Snapshot, b: Binding, execute: bool, hasEvidence: bool): Result<Verdict, Error> {
    if |OriginalAudits(s) * db.originals| != |s.events| then Failure(AuditsMissing)
    else if exists id :: id in EventIds(s) && id in db.referenced then Failure(StillReferenced)
    else if HeldEvents(db, s) == {} then
      if HeldAttempts(db, s) != {} then Failure(PartlyOffloaded)
      else if |MatchingAudits(db, b)| != 1 then Failure(NoUniqueAudit)
      else Success(AlreadyOffloaded)
    else if !HoldsAll(db, s) then Failure(PartlyOffloaded)
    else CheckHot(db, s, b, execute, hasEvidence)
  }

  function AuditFor(b: Binding): Audit {
    Audit(b.batch, b.plain, b.cipher, b.importedAt, b.eventCount, b.attemptCount)
  }

  function Remove(db: Db, s: Snapshot): Db {
    var ids := EventIds(s);
    db.(events := map id | id in db.events && id !in ids :: db.events[id],
        attempts := map a | a in db.attempts && db.attempts[a].event !in ids :: db.attempts[a])
  }

  /** What a run leaves in the database; a crash before the commit leaves it as it was. */
  function Offload(db: Db, s: Snapshot, b: Binding, execute: bool, hasEvidence: bool, newAudit: Id, crashes: bool): Db {
    if Check(db, s, b, execute, hasEvidence) != Success(Ready) || crashes || newAudit in db.audits then db
    else Remove(db, s).(audits := db.audits[newAudit := AuditFor(b)])
  }

  /* ---- The archive and the hot database together ---- */

  datatype Cold = Cold(snapshot: Snapshot, binding: Binding)

  type Archive = map<Id, Cold>

  /** Batches as receipts confirm them; no event is in two of them. */
  ghost predicate ArchiveOk(archive: Archive) {
    && (forall k :: k in archive ==> Loaded(archive[k].snapshot, archive[k].binding) && archive[k].binding.batch == k)
    && forall j, k :: j in archive && k in archive && j != k ==>
         forall id :: id in EventIds(archive[j].snapshot) ==> id !in EventIds(archive[k].snapshot)
  }

  /** The whole batch is hot and no run has left an audit. */
  ghost predicate InHot(db: Db, c: Cold) {
    HoldsAll(db, c.snapshot) && AuditsOf(db, c.binding.batch) == {}
  }

  /** Nothing of the batch is hot, and there is one audit, with its figures. */
  ghost predicate Gone(db: Db, c: Cold) {
    && HeldEvents(db, c.snapshot) == {} && HeldAttempts(db, c.snapshot) == {}
    && exists a :: AuditsOf(db, c.binding.batch) == {a} && db.audits[a] == AuditFor(c.binding)
  }

  /** The hot database and what has been archived so far. */
  datatype World = World(db: Db, archive: Archive)

  ghost predicate Inv(w: World) {
    && ArchiveOk(w.archive)
    && (forall k :: k in w.archive ==> InHot(w.db, w.archive[k]) || Gone(w.db, w.archive[k]))
    && forall a :: a in w.db.attempts ==> w.db.attempts[a].event in w.db.events
  }

  datatype Step =
    | Enter(newBatch: Id, newCold: Cold)
    | Try(batch: Id, execute: bool, hasEvidence: bool, newAudit: Id, crashes: bool)
    | Edit(id: string, row: HotRow)
    | AddEvent(newId: string, newRow: HotRow)
    | AddAttempt(key: Id, attempt: Attempt)
    | SetReferences(referenced: set<string>)

  /** A batch is archived under a new id while its events are hot, and shares none with an earlier batch. */
  ghost predicate MayEnter(w: World, k: Id, c: Cold) {
    && k !in w.archive && c.binding.batch == k && Loaded(c.snapshot, c.binding) && InHot(w.db, c)
    && forall j :: j in w.archive ==>
         forall id :: id in EventIds(w.archive[j].snapshot) ==> id !in EventIds(c.snapshot)
  }

  /** Other programs may change hot rows and add new ones, but not events that have been archived. */
  function Alter(db: Db, archive: Archive, e: Step): Db {
    match e
    case Enter(_, _) => db
    case Try(k, execute, hasEvidence, newAudit, crashes) =>
      if k !in archive then db
      else Offload(db, archive[k].snapshot, archive[k].binding, execute, hasEvidence, newAudit, crashes)
    case Edit(id, row) => if id in db.events then db.(events := db.events[id := row]) else db
    case AddEvent(id, row) =>
      if id in db.events || exists k :: k in archive && id in EventIds(archive[k].snapshot) then db
      else db.(events := db.events[id := row])
    case AddAttempt(a, attempt) =>
      if a in db.attempts || attempt.event !in db.events then db else db.(attempts := db.attempts[a := attempt])
    case SetReferences(referenced) => db.(referenced := referenced)
  }

  ghost function Apply(w: World, e: Step): World {
    if e.Enter? then
      if MayEnter(w, e.newBatch, e.newCold) then w.(archive := w.archive[e.newBatch := e.newCold]) else w
    else w.(db := Alter(w.db, w.archive, e))
  }

  ghost function Run(w: World, steps: seq<Step>): World
    decreases steps
  {
    if steps == [] then w else Run(Apply(w, steps[0]), steps[1..])
  }

  /* ---- All or nothing ---- */

  lemma OffloadRemovesBatch(db: Db, archive: Archive, k: Id, newAudit: Id)
    requires ArchiveOk(archive) && k in archive && newAudit !in db.audits && AuditsOf(db, k) == {}
    ensures Gone(Remove(db, archive[k].snapshot).(audits := db.audits[newAudit := AuditFor(archive[k].binding)]),
                 archive[k])
  {
    var c := archive[k];
    var t := Remove(db, c.snapshot).(audits := db.audits[newAudit := AuditFor(c.binding)]);
    assert AuditsOf(t, k) == {newAudit} by {
      forall a | a in db.audits ensures db.audits[a].batch != k {
        assert a !in AuditsOf(db, k);
      }
    }
  }

  lemma OffloadLeavesOthers(db: Db, archive: Archive, k: Id, j: Id, newAudit: Id)
    requires ArchiveOk(archive) && k in archive && j in archive && j != k && newAudit !in db.audits
    requires InHot(db, archive[j]) || Gone(db, archive[j])
    ensures var t := Remove(db, archive[k].snapshot).(audits := db.audits[newAudit := AuditFor(archive[k].binding)]);
            (InHot(db, archive[j]) ==> InHot(t, archive[j])) && (Gone(db, archive[j]) ==> Gone(t, archive[j]))
  {
    var t := Remove(db, archive[k].snapshot).(audits := db.audits[newAudit := AuditFor(archive[k].binding)]);
    assert AuditsOf(t, j) == AuditsOf(db, j);
    forall r | r in archive[j].snapshot.events ensures r.event.id !in EventIds(archive[k].snapshot) {
      var i :| 0 <= i < |archive[j].snapshot.events| && archive[j].snapshot.events[i] == r;
      assert EventIds(archive[j].snapshot)[i] == r.event.id;
    }
  }

  lemma ReadyMeansNoAudit(db: Db, s: Snapshot, b: Binding, execute: bool, hasEvidence: bool)
    requires Check(db, s, b, execute, hasEvidence) == Success(Ready)
    ensures AuditsOf(db, b.batch) == {} && HoldsAll(db, s)
  {
  }

  lemma TryKeeps(w: World, e: Step, k: Id)
    requires Inv(w) && e.Try? && k in w.archive
    ensures var t := Alter(w.db, w.archive, e);
            && (InHot(t, w.archive[k]) || Gone(t, w.archive[k]))
            && (Gone(w.db, w.archive[k]) ==> Gone(t, w.archive[k]))
  {
    hide Check, InHot, HoldsAll, ArchiveOk;
    var t := Alter(w.db, w.archive, e);
    if t != w.db {
      var c := w.archive[e.batch];
      ReadyMeansNoAudit(w.db, c.snapshot, c.binding, e.execute, e.hasEvidence);
      assert c.binding.batch == e.batch by { BatchIsKey(w.archive, e.batch); }
      if e.batch == k {
        OffloadRemovesBatch(w.db, w.archive, k, e.newAudit);
      } else {
        OffloadLeavesOthers(w.db, w.archive, e.batch, k, e.newAudit);
      }
    }
  }

  lemma BatchIsKey(archive: Archive, k: Id)
    requires ArchiveOk(archive) && k in archive
    ensures archive[k].binding.batch == k
  {
  }

  lemma OtherStepKeeps(w: World, e: Step, k: Id)
    requires Inv(w) && !e.Try? && k in w.archive
    ensures var t := Alter(w.db, w.archive, e);
            && (InHot(w.db, w.archive[k]) ==> InHot(t, w.archive[k]))
            && (Gone(w.db, w.archive[k]) ==> Gone(t, w.archive[k]))
  {
    var t := Alter(w.db, w.archive, e);
    assert AuditsOf(t, k) == AuditsOf(w.db, k);
    if Gone(w.db, w.archive[k]) {
      forall id | id in EventIds(w.archive[k].snapshot) ensures id !in w.db.events {
        assert id !in HeldEvents(w.db, w.archive[k].snapshot);
      }
    }
  }

  lemma AttemptsKeepEvents(w: World, e: Step)
    requires Inv(w)
    ensures var t := Alter(w.db, w.archive, e); forall a :: a in t.attempts ==> t.attempts[a].event in t.events
  {
    hide Check, InHot, Gone, ArchiveOk, MayEnter;
  }

  lemma EnteringKeepsInv(w: World, k: Id, c: Cold)
    requires Inv(w) && MayEnter(w, k, c)
    ensures Inv(w.(archive := w.archive[k := c]))
  {
    hide InHot, Gone, Loaded;
    var after := w.archive[k := c];
    forall i, j | i in after && j in after && i != j
      ensures forall id :: id in EventIds(after[i].snapshot) ==> id !in EventIds(after[j].snapshot)
    {
      assert i == k ==> j in w.archive;
    }
  }

  lemma StepKeepsInv(w: World, e: Step)
    requires Inv(w)
    ensures Inv(Apply(w, e))
  {
    hide Alter, InHot, Gone, ArchiveOk, MayEnter;
    if e.Enter? {
      if MayEnter(w, e.newBatch, e.newCold) {
        EnteringKeepsInv(w, e.newBatch, e.newCold);
      }
    } else {
      forall k | k in w.archive
        ensures InHot(Alter(w.db, w.archive, e), w.archive[k]) || Gone(Alter(w.db, w.archive, e), w.archive[k])
      {
        if e.Try? {
          TryKeeps(w, e, k);
        } else {
          OtherStepKeeps(w, e, k);
        }
      }
      AttemptsKeepEvents(w, e);
    }
  }

  ghost predicate ArchiveGrows(x: Archive, y: Archive) {
    forall k :: k in x ==> k in y && y[k] == x[k]
  }

  /**
   * In every reachable state each archived batch is either wholly hot, with no audit,
   * or wholly gone, with exactly one, whatever was archived meanwhile, whatever runs
   * were tried and wherever they crashed.
   */
  lemma {:induction false} AllOrNothing(w: World, steps: seq<Step>)
    requires Inv(w)
    ensures Inv(Run(w, steps)) && ArchiveGrows(w.archive, Run(w, steps).archive)
    decreases steps
  {
    hide Inv, Apply;
    if steps != [] {
      StepKeepsInv(w, steps[0]);
      StepGrowsArchive(w, steps[0]);
      AllOrNothing(Apply(w, steps[0]), steps[1..]);
    }
  }

  lemma StepKeepsGone(w: World, e: Step, k: Id)
    requires Inv(w) && k in w.archive && Gone(w.db, w.archive[k])
    ensures k in Apply(w, e).archive && Apply(w, e).archive[k] == w.archive[k] && Gone(Apply(w, e).db, w.archive[k])
  {
    hide Inv, Alter, Gone;
    if e.Try? {
      TryKeeps(w, e, k);
    } else if !e.Enter? {
      OtherStepKeeps(w, e, k);
    }
  }

  /** A batch that is gone stays gone. */
  lemma {:induction false} GoneStaysGone(w: World, steps: seq<Step>, k: Id)
    requires Inv(w) && k in w.archive && Gone(w.db, w.archive[k])
    ensures k in Run(w, steps).archive && Run(w, steps).archive[k] == w.archive[k]
            && Gone(Run(w, steps).db, w.archive[k])
    decreases steps
  {
    hide Inv, Apply, Gone;
    if steps != [] {
      StepKeepsGone(w, steps[0], k);
      StepKeepsInv(w, steps[0]);
      GoneStaysGone(Apply(w, steps[0]), steps[1..], k);
    }
  }

  /* ---- Nothing is lost ---- */

  lemma {:induction false} NoDifferenceExactly(db: Db, events: seq<Row>)
    requires forall r :: r in events ==> r.event.id in db.events
    ensures FirstDifference(db, events).None? <==>
            forall r :: r in events ==> !db.events[r.event.id].isLocked && db.events[r.event.id].row == r
  {
    if events != [] {
      NoDifferenceExactly(db, events[1..]);
      assert events == [events[0]] + events[1..];
    }
  }

  /** What was hot is still hot, as it was, or it is in the archive, as it was. */
  ghost predicate Kept(before: Db, after: Db, archive: Archive) {
    && (forall id :: id in before.events ==>
          || (id in after.events && after.events[id] == before.events[id])
          || exists k :: k in archive && before.events[id].row in archive[k].snapshot.events)
    && forall a :: a in before.attempts ==>
         || (a in after.attempts && after.attempts[a] == before.attempts[a])
         || exists k :: k in archive && before.attempts[a] in archive[k].snapshot.attempts
  }

  lemma RemovalIsArchived(db: Db, archive: Archive, k: Id, execute: bool, hasEvidence: bool)
    requires k in archive
    requires Check(db, archive[k].snapshot, archive[k].binding, execute, hasEvidence) == Success(Ready)
    ensures Kept(db, Remove(db, archive[k].snapshot), archive)
  {
    var s := archive[k].snapshot;
    NoDifferenceExactly(db, s.events);
    forall id | id in db.events && id in EventIds(s) ensures db.events[id].row in s.events {
      var i :| 0 <= i < |EventIds(s)| && EventIds(s)[i] == id;
      assert s.events[i] in s.events;
    }
    forall a | a in db.attempts && db.attempts[a].event in EventIds(s) ensures db.attempts[a] in s.attempts {
      assert db.attempts[a] in HeldAttemptRows(db, s);
    }
  }

  lemma StepKeeps(w: World, e: Step)
    requires !e.Edit?
    ensures Kept(w.db, Apply(w, e).db, w.archive)
  {
    hide Check, MayEnter;
    if e.Try? && Alter(w.db, w.archive, e) != w.db {
      RemovalIsArchived(w.db, w.archive, e.batch, e.execute, e.hasEvidence);
    }
  }

  lemma KeptTransitive(a: Db, b: Db, c: Db, x: Archive, y: Archive)
    requires Kept(a, b, x) && Kept(b, c, y) && ArchiveGrows(x, y)
    ensures Kept(a, c, y)
  {
  }

  lemma StepGrowsArchive(w: World, e: Step)
    ensures ArchiveGrows(w.archive, Apply(w, e).archive)
  {
    hide Alter;
  }

  /** No run of offloads, crashed or not, loses a row: hot and cold together still hold every event and attempt. */
  lemma {:induction false} NothingIsLost(w: World, steps: seq<Step>)
    requires forall e :: e in steps ==> !e.Edit?
    ensures Kept(w.db, Run(w, steps).db, Run(w, steps).archive) && ArchiveGrows(w.archive, Run(w, steps).archive)
    decreases steps
  {
    hide Kept, Apply;
    if steps == [] {
      KeptReflexive(w.db, w.archive);
    } else {
      StepKeeps(w, steps[0]);
      StepGrowsArchive(w, steps[0]);
      NothingIsLost(Apply(w, steps[0]), steps[1..]);
      KeptTransitive(w.db, Apply(w, steps[0]).db, Run(w, steps).db, w.archive, Run(w, steps).archive);
    }
  }

  lemma KeptReflexive(db: Db, archive: Archive)
    ensures Kept(db, db, archive)
  {
  }

  /* ---- Running again ---- */

  /** Nothing outside the batch stands in the way of a run. */
  predicate Undisturbed(db: Db, s: Snapshot) {
    |OriginalAudits(s) * db.originals| == |s.events| && forall id :: id in EventIds(s) ==> id !in db.referenced
  }

  /**
   * Once a batch is gone, however long ago, running again reports it as offloaded
   * exactly when the batch has at least one attempt: an audit with no attempts never
   * matches itself.
   */
  lemma RerunConvergesExactly(w: World, steps: seq<Step>, k: Id, execute: bool, hasEvidence: bool)
    requires Inv(w) && k in w.archive && Gone(w.db, w.archive[k])
    requires Undisturbed(Run(w, steps).db, w.archive[k].snapshot)
    ensures var c := w.archive[k];
            Check(Run(w, steps).db, c.snapshot, c.binding, execute, hasEvidence) == Success(AlreadyOffloaded)
            <==> c.snapshot.attempts != []
  {
    hide Run;
    GoneStaysGone(w, steps, k);
    var t, c := Run(w, steps).db, w.archive[k];
    var a :| AuditsOf(t, k) == {a} && t.audits[a] == AuditFor(c.binding);
    assert a in AuditsOf(t, k);
    if c.snapshot.attempts != [] {
      assert MatchingAudits(t, c.binding) == {a} by {
        forall x | x in MatchingAudits(t, c.binding) ensures x == a {
          assert x in AuditsOf(t, k);
        }
      }
    } else {
      forall x ensures x !in MatchingAudits(t, c.binding) {
        if x in t.audits && t.audits[x].batch == k {
          assert x in AuditsOf(t, k);
        }
      }
      assert MatchingAudits(t, c.binding) == {};
    }
  }

  /** Every event of the batch is hot, free and as archived, and so are its attempts, and nothing stands in the way. */
  ghost predicate AsArchived(db: Db, s: Snapshot) {
    && Undisturbed(db, s)
    && (forall r :: r in s.events ==> r.event.id in db.events && db.events[r.event.id] == HotRow(r, false))
    && (forall x :: x in HeldAttemptRows(db, s) <==> x in s.attempts) && |HeldAttempts(db, s)| == |s.attempts|
  }

  /** One audit, and no other, says of the batch all that the binding does, and neither count is zero. */
  ghost predicate OneAuditAgrees(db: Db, b: Binding) {
    var agreed := Audit(b.batch, b.plain, b.cipher, b.importedAt, b.eventCount, b.attemptCount);
    && b.eventCount > 0 && b.attemptCount > 0
    && exists a ::
         && a in db.audits && db.audits[a] == agreed
         && forall x :: x in db.audits && db.audits[x] == agreed ==> x == a
  }

  lemma OneMatchMeansAgreement(db: Db, b: Binding)
    ensures |MatchingAudits(db, b)| == 1 <==> OneAuditAgrees(db, b)
  {
    var agreed := Audit(b.batch, b.plain, b.cipher, b.importedAt, b.eventCount, b.attemptCount);
    var found := MatchingAudits(db, b);
    forall x
      ensures x in found <==> x in db.audits && db.audits[x] == agreed && b.eventCount > 0 && b.attemptCount > 0
    {
    }
    if |found| == 1 {
      var a :| a in found;
      assert |found - {a}| == 0;
      assert found == {a};
    }
    if OneAuditAgrees(db, b) {
      var a :| a in db.audits && db.audits[a] == agreed;
      assert found == {a};
    }
  }

  /**
   * What each passing answer means. A dry run passes exactly when the hot batch is as
   * archived; a run that is to delete needs evidence and no audit of the batch too;
   * and a batch counts as offloaded exactly when nothing of it is hot and one audit
   * agrees. Only the second changes anything.
   */
  lemma VerdictExactly(db: Db, s: Snapshot, b: Binding, execute: bool, hasEvidence: bool)
    requires Loaded(s, b)
    ensures Check(db, s, b, execute, hasEvidence) == Success(Validated) <==> AsArchived(db, s) && !execute
    ensures Check(db, s, b, execute, hasEvidence) == Success(Ready) <==>
            AsArchived(db, s) && execute && hasEvidence && AuditsOf(db, b.batch) == {}
    ensures Check(db, s, b, execute, hasEvidence) == Success(AlreadyOffloaded) <==>
            Undisturbed(db, s) && HeldEvents(db, s) == {} && HeldAttempts(db, s) == {} && OneAuditAgrees(db, b)
  {
    OneMatchMeansAgreement(db, b);
    hide OneAuditAgrees;
    hide HeldAttempts, HeldAttemptRows, AuditsOf, MatchingAudits, OriginalAudits;
    assert s.events[0] in s.events && EventIds(s)[0] == s.events[0].event.id;
    if HoldsAll(db, s) {
      assert EventIds(s)[0] in HeldEvents(db, s);
      NoDifferenceExactly(db, s.events);
      assert FirstDifference(db, s.events).None? <==>
             forall r :: r in s.events ==> db.events[r.event.id] == HotRow(r, false);
    }
    assert HeldAttemptRows(db, s) == (set a | a in s.attempts) <==>
           forall x :: x in HeldAttemptRows(db, s) <==> x in s.attempts;
  }

  /** Without the order to delete, or without evidence for it, a run changes nothing. */
  lemma DryRunChangesNothing(db: Db, s: Snapshot, b: Binding, execute: bool, hasEvidence: bool, newAudit: Id,
                             crashes: bool)
    requires Loaded(s, b) && !(execute && hasEvidence)
    ensures Offload(db, s, b, execute, hasEvidence, newAudit, crashes) == db
  {
    hide Check;
    VerdictExactly(db, s, b, execute, hasEvidence);
  }

  /** A hot batch that is as archived and undisturbed is taken out by the first run that does not crash. */
  lemma MatchingBatchIsOffloaded(w: World, k: Id, newAudit: Id)
    requires Inv(w) && k in w.archive && newAudit !in w.db.audits
    requires InHot(w.db, w.archive[k]) && Undisturbed(w.db, w.archive[k].snapshot)
    requires forall r :: r in w.archive[k].snapshot.events ==> w.db.events[r.event.id] == HotRow(r, false)
    requires HeldAttemptRows(w.db, w.archive[k].snapshot) == (set a | a in w.archive[k].snapshot.attempts)
    requires |HeldAttempts(w.db, w.archive[k].snapshot)| == |w.archive[k].snapshot.attempts|
    ensures Gone(Apply(w, Try(k, true, true, newAudit, false)).db, w.archive[k])
  {
    hide Gone, Undisturbed;
    var db, c := w.db, w.archive[k];
    NoDifferenceExactly(db, c.snapshot.events);
    assert c.snapshot.events[0] in c.snapshot.events;
    assert EventIds(c.snapshot)[0] in HeldEvents(db, c.snapshot);
    assert Check(db, c.snapshot, c.binding, true, true) == Success(Ready) by { UndisturbedPasses(db, c.snapshot); }
    OffloadRemovesBatch(db, w.archive, k, newAudit);
  }

  lemma UndisturbedPasses(db: Db, s: Snapshot)
    requires Undisturbed(db, s)
    ensures |OriginalAudits(s) * db.originals| == |s.events|
    ensures !exists id :: id in EventIds(s) && id in db.referenced
  {
  }

  /* ---- The run itself ---- */

  function AttemptsOn(attempts: map<Id, Attempt>, ids: seq<string>): set<Id> {
    set a | a in attempts && attempts[a].event in ids
  }

  function AttemptsNotOn(attempts: map<Id, Attempt>, ids: seq<string>): map<Id, Attempt> {
    map a | a in attempts && attempts[a].event !in ids :: attempts[a]
  }

  lemma NoneOn(attempts: map<Id, Attempt>, ids: seq<string>)
    requires ids == []
    ensures AttemptsOn(attempts, ids) == {} && AttemptsNotOn(attempts, ids) == attempts
  {
  }

  lemma ChunkAdds(attempts: map<Id, Attempt>, done: seq<string>, chunk: seq<string>)
    ensures AttemptsNotOn(AttemptsNotOn(attempts, done), chunk) == AttemptsNotOn(attempts, done + chunk)
    ensures |AttemptsOn(attempts, done + chunk)| ==
            |AttemptsOn(attempts, done)| + |AttemptsOn(AttemptsNotOn(attempts, done), chunk)|
  {
    var had, more := AttemptsOn(attempts, done), AttemptsOn(AttemptsNotOn(attempts, done), chunk);
    assert AttemptsOn(attempts, done + chunk) == had + more;
    assert had !! more;
  }

  class HotStore {
    var events: map<string, HotRow>
    var attempts: map<Id, Attempt>
    var audits: map<Id, Audit>
    var originals: set<Id>
    var referenced: set<string>

    function Contents(): Db
      reads this
    {
      Db(events, attempts, audits, originals, referenced)
    }

    /** Deletes chunk by chunk and adds up what the database says it deleted. */
    method DeleteAttempts(ids: seq<string>) returns (total: nat)
      modifies this`attempts
      ensures attempts == AttemptsNotOn(old(attempts), ids)
      ensures total == |AttemptsOn(old(attempts), ids)|
    {
      hide AttemptsNotOn, AttemptsOn;
      ghost var before := attempts;
      total := 0;
      var offset := 0;
      NoneOn(before, ids[..0]);
      while offset < |ids|
        invariant offset <= |ids|
        invariant attempts == AttemptsNotOn(before, ids[..offset])
        invariant total == |AttemptsOn(before, ids[..offset])|
      {
        var end := Min(offset + DELETE_CHUNK, |ids|);
        var chunk := ids[offset..end];
        assert ids[..end] == ids[..offset] + chunk;
        ChunkAdds(before, ids[..offset], chunk);
        total := total + |AttemptsOn(attempts, chunk)|;
        attempts := AttemptsNotOn(attempts, chunk);
        offset := end;
      }
      assert ids[..offset] == ids;
    }

    method DeleteEvents(ids: seq<string>) returns (total: nat)
      modifies this`events
      ensures events == map id | id in old(events) && id !in ids :: old(events)[id]
      ensures total == |set id | id in old(events) && id in ids|
    {
      ghost var before := events;
      ghost var gone: set<string> := {};
      total := 0;
      var offset := 0;
      while offset < |ids|
        invariant offset <= |ids|
        invariant events == map id | id in before && id !in ids[..offset] :: before[id]
        invariant gone == set id | id in before && id in ids[..offset]
        invariant total == |gone|
      {
        var end := Min(offset + DELETE_CHUNK, |ids|);
        var chunk := ids[offset..end];
        assert ids[..end] == ids[..offset] + chunk;
        var hit := set id | id in events && id in chunk;
        events := map id | id in events && id !in chunk :: events[id];
        total, gone := total + |hit|, gone + hit;
        offset := end;
      }
      assert ids[..offset] == ids;
    }

    /** The comparison of the events, one by one. */
    method CompareEvents(rows: seq<Row>) returns (error: Option<Error>)
      requires forall r :: r in rows ==> r.event.id in events
      ensures error == FirstDifference(Contents(), rows)
    {
      for i := 0 to |rows|
        invariant FirstDifference(Contents(), rows) == FirstDifference(Contents(), rows[i..])
      {
        assert rows[i..][0] == rows[i] && rows[i..][1..] == rows[i + 1..];
        var hot := events[rows[i].event.id];
        if hot.isLocked {
          return Some(EventLocked);
        }
        if hot.row != rows[i] {
          return Some(EventChanged);
        }
      }
      assert rows[|rows|..] == [];
      error := None;
    }

    /** The checks on a batch that is hot; counts are compared before contents. */
    method CompareHot(s: Snapshot, b: Binding, execute: bool, hasEvidence: bool) returns (r: Result<Verdict, Error>)
      requires HoldsAll(Contents(), s)
      ensures r == CheckHot(Contents(), s, b, execute, hasEvidence)
    {
      if |HeldAttempts(Contents(), s)| != |s.attempts| {
        return Failure(AttemptsDiffer);
      }
      var difference := CompareEvents(s.events);
      if difference.Some? {
        return Failure(difference.value);
      }
      if HeldAttemptRows(Contents(), s) != set a | a in s.attempts {
        return Failure(AttemptsDiffer);
      }
      if !execute {
        return Success(Validated);
      }
      if !hasEvidence {
        return Failure(EvidenceMissing);
      }
      r := if AuditsOf(Contents(), b.batch) != {} then Failure(AuditWhileHot) else Success(Ready);
    }

    method Validate(s: Snapshot, b: Binding, execute: bool, hasEvidence: bool) returns (r: Result<Verdict, Error>)
      requires Loaded(s, b)
      ensures r == Check(Contents(), s, b, execute, hasEvidence)
    {
      hide CheckHot;
      if |OriginalAudits(s) * originals| != |s.events| {
        return Failure(AuditsMissing);
      }
      if exists id :: id in EventIds(s) && id in referenced {
        return Failure(StillReferenced);
      }
      var held := HeldEvents(Contents(), s);
      if held == {} {
        if HeldAttempts(Contents(), s) != {} {
          return Failure(PartlyOffloaded);
        }
        return if |MatchingAudits(Contents(), b)| != 1 then Failure(NoUniqueAudit) else Success(AlreadyOffloaded);
      }
      HeldCount(Contents(), s);
      if |held| != |s.events| {
        return Failure(PartlyOffloaded);
      }
      r := CompareHot(s, b, execute, hasEvidence);
    }

    /**
     * One run. Deletions and the audit are one transaction: a crash before the commit,
     * or a count that does not agree, leaves the tables as they were.
     */
    method ValidateAndOffload(s: Snapshot, b: Binding, execute: bool, hasEvidence: bool, newAudit: Id, crashes: bool)
      returns (r: Result<Verdict, Error>)
      requires Loaded(s, b) && newAudit !in audits
      modifies this`events, this`attempts, this`audits
      ensures Contents() == Offload(old(Contents()), s, b, execute, hasEvidence, newAudit, crashes)
      ensures r == Check(old(Contents()), s, b, execute, hasEvidence)
    {
      hide Check;
      r := Validate(s, b, execute, hasEvidence);
      if r != Success(Ready) {
        return;
      }
      var before := Contents();
      ReadyCounts(before, s, b, execute, hasEvidence);
      var ids := EventIds(s);
      var deletedAttempts := DeleteAttempts(ids);
      var deletedEvents := DeleteEvents(ids);
      if crashes || deletedAttempts != |s.attempts| || deletedEvents != |s.events| {
        events, attempts := before.events, before.attempts;
        return;
      }
      audits := audits[newAudit := AuditFor(b)];
    }
  }

  /** As many hot events as archived ones means all of them. */
  lemma HeldCount(db: Db, s: Snapshot)
    requires Distinct(EventIds(s))
    ensures |HeldEvents(db, s)| == |s.events| <==> HoldsAll(db, s)
  {
    var ids := set id | id in EventIds(s);
    DistinctCount(EventIds(s));
    assert HeldEvents(db, s) <= ids;
    if HoldsAll(db, s) {
      forall id | id in ids ensures id in db.events {
        var i :| 0 <= i < |EventIds(s)| && EventIds(s)[i] == id;
        assert s.events[i] in s.events;
      }
      assert HeldEvents(db, s) == ids;
    } else if |HeldEvents(db, s)| == |s.events| {
      SubsetOfSameSize(HeldEvents(db, s), ids);
      forall r | r in s.events ensures r.event.id in db.events {
        var i :| 0 <= i < |s.events| && s.events[i] == r;
        assert EventIds(s)[i] in ids;
      }
    }
  }

  lemma {:induction false} DistinctCount(ids: seq<string>)
    requires Distinct(ids)
    ensures |set id | id in ids| == |ids|
  {
    if ids != [] {
      var last, rest := ids[|ids| - 1], ids[..|ids| - 1];
      DistinctCount(rest);
      assert ids == rest + [last];
      assert (set id | id in ids) == (set id | id in rest) + {last};
    }
  }

  lemma {:induction false} SubsetOfSameSize(a: set<string>, b: set<string>)
    requires a <= b && |a| == |b|
    ensures a == b
  {
    if x :| x in b && x !in a {
      SmallerSet(a, b - {x});
    }
  }

  lemma {:induction false} SmallerSet(a: set<string>, b: set<string>)
    requires a <= b
    ensures |a| <= |b|
  {
    if x :| x in a {
      SmallerSet(a - {x}, b - {x});
    }
  }

  lemma ReadyCounts(db: Db, s: Snapshot, b: Binding, execute: bool, hasEvidence: bool)
    requires Loaded(s, b) && Check(db, s, b, execute, hasEvidence) == Success(Ready)
    ensures |AttemptsOn(db.attempts, EventIds(s))| == |s.attempts|
    ensures |set id | id in db.events && id in EventIds(s)| == |s.events|
  {
    HeldCount(db, s);
    assert HeldAttempts(db, s) == AttemptsOn(db.attempts, EventIds(s));
    assert HeldEvents(db, s) == set id | id in db.events && id in EventIds(s);
  }
}
