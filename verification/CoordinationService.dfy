/**
 * The coordination service over its tables. Each method is one request; the clock
 * reading and the id of a new row are given, and everything else is computed here.
 */
module CoordinationService {
  import opened Common
  import opened Reservations
  import opened Leases
  import opened Conflicts
  import opened Handoffs

  class Coordination {
    var leases: Rows
    var changes: map<Id, Change>
    var newestFirst: seq<Id>
    var barriers: map<Id, Barrier>
    var world: World

    function Contents(): Ledger
      reads this
    {
      Ledger(leases, changes, newestFirst, barriers)
    }

    ghost predicate Valid()
      reads this
    {
      BarriersSound(Contents()) && Inv(leases)
    }

    constructor (world: World)
      ensures Valid() && Contents() == Ledger(map[], map[], [], map[]) && this.world == world
    {
      leases, changes, newestFirst, barriers := map[], map[], [], map[];
      this.world := world;
    }

    /** Whatever a request did, if the tables are as an action leaves them they are valid. */
    ghost method Settle(before: Ledger, a: Action)
      requires BarriersSound(before) && Inv(before.leases) && Contents() == Perform(before, a)
      ensures Valid()
    {
      PerformKeepsSound(before, a);
      PerformKeepsInv(before, a);
    }

    ghost method SettleLeases(before: Ledger, e: Event)
      requires BarriersSound(before) && Inv(before.leases)
      requires Contents() == before.(leases := Apply(before.leases, e))
      ensures Valid()
    {
      hide BarriersSound, Inv, Apply;
      assert BarriersSound(before);
      WellFormedIfSound(before);
      Settle(before, OnLeases(e));
    }

    /* ---- Leases ---- */

    method ExpireStaleLeases(now: Time) returns (changed: nat)
      requires Valid()
      modifies this`leases
      ensures Valid() && leases == ExpireStale(old(leases), now)
      ensures changed == |set id | id in old(leases) && leases[id] != old(leases)[id]|
    {
      hide BarriersSound, Inv;
      ghost var before := Contents();
      changed := 0;
      ghost var expired: set<Id> := {};
      var pending := leases.Keys;
      while pending != {}
        invariant leases.Keys == before.leases.Keys && pending <= leases.Keys
        invariant forall id :: id in pending ==> leases[id] == before.leases[id]
        invariant forall id :: id in leases && id !in pending ==> leases[id] == ExpireLease(before.leases[id], now)
        invariant forall id :: id in expired <==> id in leases && leases[id] != before.leases[id]
        invariant changed == |expired|
      {
        var id :| id in pending;
        pending := pending - {id};
        if leases[id].status.Active? && leases[id].expiresAt <= now {
          leases := leases[id := leases[id].(status := Expired)];
          changed := changed + 1;
          expired := expired + {id};
        }
      }
      assert leases == ExpireStale(before.leases, now);
      assert expired == set id | id in before.leases && leases[id] != before.leases[id];
      SettleLeases(before, Event(DoExpire, world, now));
    }

    method LeaseWithKey(key: Option<Id>) returns (found: Option<Id>)
      ensures found.Some? <==> HasKey(leases, key)
      ensures found.Some? ==> found.value in leases && leases[found.value].key == key
    {
      found := None;
      if key.None? {
        return;
      }
      var pending := leases.Keys;
      while pending != {} && found.None?
        invariant pending <= leases.Keys
        invariant forall id :: id in leases && id !in pending && leases[id].key == key ==> found.Some?
        invariant found.Some? ==> found.value in leases && leases[found.value].key == key
        decreases pending
      {
        var id :| id in pending;
        pending := pending - {id};
        if leases[id].key == key {
          found := Some(id);
        }
      }
    }

    /** The scan of the room's active leases, test by test. */
    method AnyConflict(req: Acquisition) returns (conflict: bool)
      ensures conflict <==> exists l :: l in leases.Values && Blocks(req, l)
    {
      conflict := false;
      var pending := leases.Keys;
      while pending != {} && !conflict
        invariant pending <= leases.Keys
        invariant !conflict ==> forall id :: id in leases && id !in pending ==> !Blocks(req, leases[id])
        invariant conflict ==> exists l :: l in leases.Values && Blocks(req, l)
        decreases pending
      {
        var id :| id in pending;
        pending := pending - {id};
        var l := leases[id];
        assert l in leases.Values;
        if l.room == req.room && l.status.Active? && !(req.mode.SharedRead? && l.mode.SharedRead?) {
          if SetsOverlap(req.reservations, l.reservations) {
            conflict := true;
          } else if req.branch.Some? && l.branch == req.branch {
            conflict := true;
          } else if req.worktree.Some? && l.worktree == req.worktree {
            conflict := true;
          }
        }
      }
    }

    method HighestToken(room: Id) returns (t: nat)
      ensures t == MaxToken(leases, room)
    {
      t := 0;
      var pending := leases.Keys;
      while pending != {}
        invariant pending <= leases.Keys
        invariant forall id :: id in leases && id !in pending && leases[id].room == room ==> leases[id].token <= t
        invariant t == 0 || exists id :: id in leases && leases[id].room == room && leases[id].token == t
      {
        var id :| id in pending;
        pending := pending - {id};
        if leases[id].room == room && leases[id].token > t {
          t := leases[id].token;
        }
      }
      MaxTokenUnique(leases, room, t);
    }

    method AcquireLease(req: Acquisition, newId: Id, now: Time) returns (r: Result<Lease, LeaseError>)
      requires Valid()
      modifies this`leases
      ensures Valid() && leases == Acquire(old(leases), world, req, newId, now)
      ensures var live := ExpireStale(old(leases), now);
              if HasKey(old(leases), req.key) then r.Success? && r.value in leases.Values && r.value.key == req.key
              else if AcquireError(live, world, req, newId).Some? then
                r == Failure(AcquireError(live, world, req, newId).value)
              else newId !in old(leases) && r == Success(leases[newId])
    {
      hide BarriersSound, Inv;
      ghost var before := Contents();
      var existing := LeaseWithKey(req.key);
      if existing.Some? {
        return Success(leases[existing.value]);
      }
      var _ := ExpireStaleLeases(now);
      var refused := CheckRequest(world, req);
      if refused.Some? {
        return Failure(refused.value);
      }
      var conflict := AnyConflict(req);
      if conflict {
        return Failure(LeaseConflict);
      }
      if newId in leases {
        return Failure(IdTaken);
      }
      var token := HighestToken(req.room);
      var added := NewLease(req, newId, token + 1, now);
      leases := leases[newId := added];
      SettleLeases(before, Event(DoAcquire(req, newId), world, now));
      r := Success(added);
    }

    method RenewLease(id: Id, holder: Id, token: int, ttl: int, now: Time) returns (r: Result<Lease, LeaseError>)
      requires Valid()
      modifies this`leases
      ensures Valid() && leases == Renew(old(leases), world, id, holder, token, ttl, now)
      ensures var error := RenewError(ExpireStale(old(leases), now), world, id, holder, token);
              if error.Some? then r == Failure(error.value) else id in leases && r == Success(leases[id])
    {
      hide BarriersSound, Inv;
      ghost var before := Contents();
      var _ := ExpireStaleLeases(now);
      if id !in leases {
        return Failure(LeaseNotFound);
      }
      if !leases[id].status.Active? {
        return Failure(LeaseError.LeaseNotActive);
      }
      if leases[id].holder != holder || leases[id].token != token {
        return Failure(StaleHolderOrToken);
      }
      if holder !in world.agents {
        return Failure(AgentNotFound);
      }
      leases := leases[id := leases[id].(expiresAt := now + Clamp(ttl, 30, 3600))];
      SettleLeases(before, Event(DoRenew(id, holder, token, ttl), world, now));
      r := Success(leases[id]);
    }

    method ReleaseLease(id: Id, actor: Id, token: int, force: bool) returns (r: Result<Lease, LeaseError>)
      requires Valid()
      modifies this`leases
      ensures Valid() && leases == Release(old(leases), world, id, actor, token, force)
      ensures var error := ReleaseError(old(leases), world, id, actor, token, force);
              if error.Some? then r == Failure(error.value) else id in leases && r == Success(leases[id])
    {
      hide BarriersSound, Inv;
      ghost var before := Contents();
      if id !in leases {
        return Failure(LeaseNotFound);
      }
      var l := leases[id];
      if l.room !in world.rooms {
        return Failure(RoomNotFound);
      }
      if actor !in world.agents {
        return Failure(AgentNotFound);
      }
      if !l.status.Active? {
        return Success(l);
      }
      if l.token != token {
        return Failure(StaleHolderOrToken);
      }
      if actor != l.holder && !(force && IsCoordinator(world, l.room, actor)) {
        return Failure(NotHolderNorCoordinator);
      }
      leases := leases[id := l.(status := if force && actor != l.holder then Revoked else Released)];
      SettleLeases(before, Event(DoRelease(id, actor, token, force), world, 0));
      r := Success(leases[id]);
    }

    /** The leases a write to the path has to be made under. */
    method CoveringLeases(origin: Origin, resource: Option<Id>, path: string, now: Time) returns (covering: set<Id>)
      requires Valid()
      modifies this`leases
      ensures Valid() && leases == ExpireStale(old(leases), now)
      ensures forall id :: id in covering <==> id in leases && CoversWrite(leases[id], origin, resource, path)
    {
      var _ := ExpireStaleLeases(now);
      covering := {};
      var pending := leases.Keys;
      while pending != {}
        invariant pending <= leases.Keys
        invariant forall id ::
                  id in covering <==> id in leases && id !in pending && CoversWrite(leases[id], origin, resource, path)
      {
        var id :| id in pending;
        pending := pending - {id};
        var l := leases[id];
        if l.origin == origin && l.resource == resource && l.status.Active? && l.mode.ExclusiveWrite? {
          var relative := RelativeTo(RootOf(l), path);
          if relative.Some? && LeaseCovers(l, relative.value) {
            covering := covering + {id};
          }
        }
      }
    }

    method ValidateWriteContext(w: WriteRequest, now: Time) returns (r: Result<Option<WriteContext>, WriteError>)
      requires Valid()
      modifies this`leases
      ensures Valid() && leases == ExpireStale(old(leases), now)
      ensures r == ValidateWrite(old(leases), w, now)
    {
      var covering := CoveringLeases(w.origin, w.resource, w.path, now);
      if covering == {} {
        return if SuppliesGuard(w) then Failure(NothingCovers) else Success(None);
      }
      ghost var witness_ :| witness_ in covering;
      assert witness_ in leases && CoversWrite(leases[witness_], w.origin, w.resource, w.path);
      if w.lease.None? {
        return Failure(MissingLease);
      }
      if w.agent.None? {
        return Failure(MissingAgent);
      }
      if w.room.None? {
        return Failure(MissingRoom);
      }
      if w.token.None? {
        return Failure(BadToken);
      }
      if w.lease.value !in covering {
        return Failure(ReservedByAnother);
      }
      var l, token := leases[w.lease.value], Clamp(w.token.value, 1, MAX_TOKEN);
      if l.room != w.room.value || l.holder != w.agent.value || l.token != token {
        return Failure(StaleContext);
      }
      if w.branch.None? {
        return Failure(MissingBranch);
      }
      if w.worktree.None? {
        return Failure(MissingWorktree);
      }
      if w.base.None? {
        return Failure(MissingBase);
      }
      if w.branch != l.branch || w.worktree != l.worktree || w.base != l.base {
        return Failure(ContextMismatch);
      }
      if w.expectedSha.Some? == w.expectedAbsent {
        return Failure(BadExpectation);
      }
      r := Success(Some(WriteContext(w.lease.value, w.agent.value, w.room.value, token)));
    }

    /* ---- Handoffs ---- */

    /** The changes with the given ids, once each in the order of their first mention. */
    method FindChanges(ids: seq<Id>, room: Id) returns (r: Result<seq<Change>, HandoffError>)
      ensures AllFound(changes, room, ids) ==> r == Success(ChangesOf(changes, Unique(ids)))
      ensures !AllFound(changes, room, ids) ==> r == Failure(ChangeNotFound)
    {
      var unique: seq<Id> := [];
      for i := 0 to |ids|
        invariant unique == Unique(ids[..i])
      {
        assert ids[..i + 1][..i] == ids[..i];
        if ids[i] !in unique {
          unique := unique + [ids[i]];
        }
      }
      assert ids[..|ids|] == ids;
      var rows: seq<Change> := [];
      for i := 0 to |unique|
        invariant |rows| == i
        invariant forall k :: 0 <= k < i ==> unique[k] in changes && changes[unique[k]].room == Some(room)
        invariant forall k :: 0 <= k < i ==> rows[k] == changes[unique[k]]
      {
        if unique[i] !in changes || changes[unique[i]].room != Some(room) {
          assert unique[i] in ids;
          return Failure(ChangeNotFound);
        }
        rows := rows + [changes[unique[i]]];
      }
      assert AllFound(changes, room, ids) by {
        forall id | id in ids ensures id in changes && changes[id].room == Some(room) {
          assert id in unique;
        }
      }
      assert rows == ChangesOf(changes, Unique(ids));
      r := Success(rows);
    }

    method DetectConflictsIn(room: Id, candidateIds: seq<Id>, given: Option<seq<Id>>)
      returns (r: Result<Evidence, HandoffError>)
      requires WellFormed(Contents())
      ensures AllFound(changes, room, candidateIds) && (given.Some? ==> AllFound(changes, room, given.value)) ==>
                var candidates := Unique(candidateIds);
                var others := Comparisons(Contents(), room, candidates, given);
                r == Success(Evidence(ReportOn(ChangesOf(changes, candidates), ChangesOf(changes, others)), candidates,
                                      others))
      ensures !(AllFound(changes, room, candidateIds) && (given.Some? ==> AllFound(changes, room, given.value))) ==>
                r == Failure(ChangeNotFound)
    {
      var found := FindChanges(candidateIds, room);
      if found.Failure? {
        return Failure(found.error);
      }
      var candidates := Unique(candidateIds);
      var others: seq<Id>;
      var rows: seq<Change>;
      if given.Some? {
        var alsoFound := FindChanges(given.value, room);
        if alsoFound.Failure? {
          return Failure(alsoFound.error);
        }
        others, rows := Unique(given.value), alsoFound.value;
      } else {
        others := NewestOthers(room, candidates);
        rows := ChangesOf(changes, others);
      }
      var report := DetectConflicts(found.value, rows);
      r := Success(Evidence(report, candidates, others));
    }

    /** What a handoff is compared with by default. */
    method NewestOthers(room: Id, candidates: seq<Id>) returns (others: seq<Id>)
      requires WellFormed(Contents())
      ensures others == Comparisons(Contents(), room, candidates, None)
    {
      var inRoom := ChangesInRoom(room);
      var newest := Newest(inRoom, COMPARISON_LIMIT);
      others := [];
      for i := 0 to |newest|
        invariant others == Without(newest[..i], candidates)
      {
        assert newest[..i + 1][..i] == newest[..i];
        if newest[i] !in candidates {
          others := others + [newest[i]];
        }
      }
      assert newest[..|newest|] == newest;
    }

    method ChangesInRoom(room: Id) returns (inRoom: seq<Id>)
      requires WellFormed(Contents())
      ensures inRoom == InRoom(Contents(), room, newestFirst)
    {
      inRoom := [];
      for i := 0 to |newestFirst|
        invariant inRoom == InRoom(Contents(), room, newestFirst[..i])
      {
        assert newestFirst[..i + 1][..i] == newestFirst[..i];
        if changes[newestFirst[i]].room == Some(room) {
          inRoom := inRoom + [newestFirst[i]];
        }
      }
      assert newestFirst[..|newestFirst|] == newestFirst;
    }

    method CreateHandoff(req: HandoffRequest, newId: Id) returns (r: Result<Barrier, HandoffError>)
      requires Valid()
      modifies this`barriers
      ensures Valid() && Contents() == Create(old(Contents()), world, req, newId)
      ensures if KnownKey(old(Contents()), req.key) then
              r.Success? && r.value in barriers.Values && r.value.key == req.key
              else if CreateError(old(Contents()), world, req, newId).Some? then
                r == Failure(CreateError(old(Contents()), world, req, newId).value)
              else newId in barriers && r == Success(barriers[newId])
    {
      hide BarriersSound, Inv;
      ghost var before := Contents();
      var token := Clamp(req.token, 1, MAX_TOKEN);
      if KnownKey(Contents(), req.key) {
        var id :| id in barriers && barriers[id].key == req.key;
        return Success(barriers[id]);
      }
      if req.room !in world.rooms {
        return Failure(NoSuchRoom);
      }
      if req.source !in world.agents || req.target !in world.agents {
        return Failure(NoSuchAgent);
      }
      if world.agents[req.source].room != Some(req.room) || world.agents[req.target].room != Some(req.room) {
        return Failure(AgentElsewhere);
      }
      if req.lease !in leases {
        return Failure(NoSuchLease);
      }
      var l := leases[req.lease];
      if l.room != req.room || l.holder != req.source || l.token != token {
        return Failure(StaleLeaseContext);
      }
      if !l.status.Active? {
        return Failure(HandoffError.LeaseNotActive);
      }
      var found := FindChanges(req.required, req.room);
      if found.Failure? {
        return Failure(found.error);
      }
      var own := AllMadeUnder(found.value, req.required, req.lease, l.token);
      if !own {
        return Failure(ForeignChanges);
      }
      if newId in barriers {
        return Failure(BarrierIdTaken);
      }
      var added :=
        Barrier(newId, req.room, req.source, req.target, req.lease, token, req.required, req.key, Open, None);
      barriers := barriers[newId := added];
      Settle(before, DoCreate(world, req, newId));
      r := Success(added);
    }

    method AllMadeUnder(rows: seq<Change>, ids: seq<Id>, lease: Id, token: int) returns (own: bool)
      requires forall id :: id in ids ==> id in changes
      requires rows == ChangesOf(changes, Unique(ids))
      ensures own == MadeUnder(changes, ids, lease, token)
    {
      for i := 0 to |rows|
        invariant forall k :: 0 <= k < i ==>
          rows[k].lease == Some(lease) && rows[k].token.Some? && rows[k].token.value == token
      {
        if !(rows[i].lease == Some(lease) && rows[i].token.Some? && rows[i].token.value == token) {
          var id :| id in Unique(ids) && rows[i] == changes[id];
          return false;
        }
      }
      forall id | id in ids
        ensures changes[id].lease == Some(lease) && changes[id].token.Some? && changes[id].token.value == token
      {
        assert id in Unique(ids) && changes[id] in rows;
      }
      own := true;
    }

    method MarkHandoffReady(id: Id, source: Id) returns (r: Result<Barrier, HandoffError>)
      requires Valid()
      modifies this`barriers
      ensures Valid() && Contents() == MarkReady(old(Contents()), id, source)
      ensures var error := MarkReadyError(old(Contents()), id, source);
              if error.Some? then r == Failure(error.value) else id in barriers && r == Success(barriers[id])
    {
      hide BarriersSound, Inv;
      ghost var before := Contents();
      if id !in barriers {
        return Failure(BarrierNotFound);
      }
      var b := barriers[id];
      if b.source != source {
        return Failure(NotSource);
      }
      if b.status.Accepted? {
        return Success(b);
      }
      if b.lease !in leases {
        return Failure(NoSuchLease);
      }
      if leases[b.lease].token != b.token {
        return Failure(StaleLeaseContext);
      }
      var found := FindChanges(b.required, b.room);
      if found.Failure? {
        return Failure(ChangeNotFound);
      }
      var own := AllMadeUnder(found.value, b.required, b.lease, b.token);
      if !own {
        return Failure(ForeignChanges);
      }
      barriers := barriers[id := b.(status := Ready)];
      Settle(before, DoMarkReady(id, source));
      r := Success(barriers[id]);
    }

    /** An unsafe comparison is recorded on the barrier before the request fails. */
    method AcceptHandoff(id: Id, target: Id, given: Option<seq<Id>>) returns (r: Result<Barrier, HandoffError>)
      requires Valid()
      modifies this`barriers
      ensures Valid() && Contents() == Accept(old(Contents()), id, target, given)
      ensures var error := AcceptError(old(Contents()), id, target, given);
              if error.Some? then r == Failure(error.value)
              else
                && id in barriers
                && r == if barriers[id].status.Accepted? then Success(barriers[id]) else Failure(HardConflicts)
    {
      hide BarriersSound, Inv, ReportOn, ChangesOf, Comparisons, AllFound, Unique, MadeUnder;
      ghost var before := Contents();
      if id !in barriers {
        return Failure(BarrierNotFound);
      }
      var b := barriers[id];
      if b.target != target {
        return Failure(NotTarget);
      }
      if b.status.Accepted? {
        return Success(b);
      }
      if !b.status.Ready? {
        return Failure(NotReady);
      }
      if b.lease !in leases {
        return Failure(NoSuchLease);
      }
      if leases[b.lease].status.Active? {
        return Failure(LeaseStillActive);
      }
      WellFormedIfSound(before);
      var evidence := DetectConflictsIn(b.room, b.required, given);
      if evidence.Failure? {
        return Failure(evidence.error);
      }
      b := b.(evidence := Some(evidence.value));
      if !evidence.value.report.safe {
        barriers := barriers[id := b.(status := Blocked)];
        Settle(before, DoAccept(id, target, given));
        return Failure(HardConflicts);
      }
      barriers := barriers[id := b.(status := Accepted)];
      Settle(before, DoAccept(id, target, given));
      r := Success(barriers[id]);
    }
  }
}
