/**
 * Resource leases with fencing tokens. Agents of one owner reserve paths inside a
 * room; the lease they get carries a token that later writes have to present.
 * Every query of the service is filtered by owner, so a state holds the rows of
 * one owner. Each operation is one transaction, given as a function of the state.
 */
module Leases {
  import opened Common
  import opened Globs
  import opened Reservations

  datatype Mode = ExclusiveWrite | SharedRead

  datatype LeaseStatus = Active | Expired | Released | Revoked

  datatype Origin = Server | Elsewhere(name: Id)

  datatype Lease = Lease(
    id: Id, room: Id, holder: Id, origin: Origin, resource: Option<Id>, mode: Mode,
    reservations: seq<Reservation>, token: nat, status: LeaseStatus,
    branch: Option<Id>, worktree: Option<string>, base: Option<Id>,
    key: Option<Id>, expiresAt: Time)

  datatype Room = Room(active: bool, coordinators: set<Id>)

  datatype Agent = Agent(room: Option<Id>, mayCoordinate: bool)

  datatype WorkItem = WorkItem(room: Id, assignee: Option<Id>, inProgress: bool)

  /** Rows the lease operations read and never write. */
  datatype World = World(rooms: map<Id, Room>, agents: map<Id, Agent>, items: map<Id, WorkItem>)

  type Rows = map<Id, Lease>

  datatype LeaseError =
    | RoomNotFound | RoomNotActive | AgentNotFound | AgentNotInRoom
    | ResourceRequired | NoReservations | TooManyReservations
    | ContextRequired | WorktreeNotIsolated
    | WorkItemNotFound | WorkItemNotAssigned
    | LeaseConflict | IdTaken
    | LeaseNotFound | LeaseNotActive | StaleHolderOrToken | NotHolderNorCoordinator

  datatype Acquisition = Acquisition(
    room: Id, holder: Id, key: Option<Id>, mode: Mode, origin: Origin, resource: Option<Id>,
    reservations: seq<Reservation>, branch: Option<Id>, worktree: Option<string>, base: Option<Id>,
    item: Option<Id>, ttl: int)

  const MAX_TOKEN: nat := 0x7FFF_FFFF_FFFF_FFFF

  /** Out-of-range numbers are moved to the nearest bound, not refused. */
  function Clamp(value: int, low: int, high: int): int {
    Max(low, Min(value, high))
  }

  /* ---- Expiry ---- */

  function ExpireLease(l: Lease, now: Time): Lease {
    if l.status.Active? && l.expiresAt <= now then l.(status := Expired) else l
  }

  function ExpireStale(rows: Rows, now: Time): Rows {
    map id | id in rows :: ExpireLease(rows[id], now)
  }

  /* ---- Acquiring ---- */

  predicate Incompatible(mode: Mode, reservations: seq<Reservation>, branch: Option<Id>, worktree: Option<string>,
                         l: Lease)
  {
    && !(mode.SharedRead? && l.mode.SharedRead?)
    && (|| SetsOverlap(reservations, l.reservations)
        || (branch.Some? && l.branch == branch)
        || (worktree.Some? && l.worktree == worktree))
  }

  predicate Blocks(req: Acquisition, l: Lease) {
    l.room == req.room && l.status.Active? && Incompatible(req.mode, req.reservations, req.branch, req.worktree, l)
  }

  /** The checks before the conflict scan, in the order in which they are made. */
  function CheckRequest(world: World, req: Acquisition): Option<LeaseError> {
    if req.room !in world.rooms then Some(RoomNotFound)
    else if !world.rooms[req.room].active then Some(RoomNotActive)
    else if req.holder !in world.agents then Some(AgentNotFound)
    else if world.agents[req.holder].room != Some(req.room) then Some(AgentNotInRoom)
    else if req.origin != Server && req.resource.None? then Some(ResourceRequired)
    else if req.reservations == [] then Some(NoReservations)
    else if |req.reservations| > 200 then Some(TooManyReservations)
    else if req.mode.ExclusiveWrite? && (req.branch.None? || req.worktree.None? || req.base.None?) then
      Some(ContextRequired)
    else if req.mode.ExclusiveWrite? && req.worktree == Some(".") then Some(WorktreeNotIsolated)
    else if req.item.Some? && !(req.item.value in world.items && world.items[req.item.value].room == req.room) then
      Some(WorkItemNotFound)
    else if req.item.Some?
      && !(world.items[req.item.value].assignee == Some(req.holder) && world.items[req.item.value].inProgress) then
      Some(WorkItemNotAssigned)
    else None
  }

  /** The highest token ever given out in a room, 0 if none. Leases are never deleted. */
  ghost predicate IsMaxToken(rows: Rows, room: Id, t: nat) {
    && (forall id :: id in rows && rows[id].room == room ==> rows[id].token <= t)
    && (t == 0 || exists id :: id in rows && rows[id].room == room && rows[id].token == t)
  }

  lemma {:induction false} MaxTokenExists(rows: Rows, room: Id)
    ensures exists t :: IsMaxToken(rows, room, t)
    decreases rows.Keys
  {
    if id :| id in rows {
      var rest := map k | k in rows && k != id :: rows[k];
      MaxTokenExists(rest, room);
      var t :| IsMaxToken(rest, room, t);
      var higher := if rows[id].room == room && rows[id].token > t then rows[id].token else t;
      assert forall k :: k in rows ==> k == id || rest[k] == rows[k];
      assert IsMaxToken(rows, room, higher);
    } else {
      assert IsMaxToken(rows, room, 0);
    }
  }

  ghost function MaxToken(rows: Rows, room: Id): (t: nat)
    ensures IsMaxToken(rows, room, t)
  {
    MaxTokenExists(rows, room);
    var t :| IsMaxToken(rows, room, t);
    t
  }

  lemma MaxTokenUnique(rows: Rows, room: Id, t: nat)
    requires IsMaxToken(rows, room, t)
    ensures t == MaxToken(rows, room)
  {
  }

  ghost predicate HasKey(rows: Rows, key: Option<Id>) {
    key.Some? && exists id :: id in rows && rows[id].key == key
  }

  function NewLease(req: Acquisition, id: Id, token: nat, now: Time): Lease {
    Lease(id, req.room, req.holder, req.origin, req.resource, req.mode, req.reservations, token, Active,
          req.branch, req.worktree, req.base, req.key, now + Clamp(req.ttl, 30, 3600))
  }

  ghost function AcquireError(rows: Rows, world: World, req: Acquisition, id: Id): Option<LeaseError> {
    if CheckRequest(world, req).Some? then CheckRequest(world, req)
    else if exists l :: l in rows.Values && Blocks(req, l) then Some(LeaseConflict)
    else if id in rows then Some(IdTaken)
    else None
  }

  /** Acquiring at time `now` a lease that is to get the id `id`. A known key changes nothing. */
  ghost function Acquire(rows: Rows, world: World, req: Acquisition, id: Id, now: Time): Rows {
    if HasKey(rows, req.key) then rows
    else
      var live := ExpireStale(rows, now);
      if AcquireError(live, world, req, id).Some? then live
      else live[id := NewLease(req, id, MaxToken(live, req.room) + 1, now)]
  }

  /* ---- Renewing and releasing ---- */

  function RenewError(rows: Rows, world: World, id: Id, holder: Id, token: int): Option<LeaseError> {
    if id !in rows then Some(LeaseNotFound)
    else if !rows[id].status.Active? then Some(LeaseNotActive)
    else if rows[id].holder != holder || rows[id].token != token then Some(StaleHolderOrToken)
    else if holder !in world.agents then Some(AgentNotFound)
    else None
  }

  function Renew(rows: Rows, world: World, id: Id, holder: Id, token: int, ttl: int, now: Time): Rows {
    var live := ExpireStale(rows, now);
    if RenewError(live, world, id, holder, token).Some? then live
    else live[id := live[id].(expiresAt := now + Clamp(ttl, 30, 3600))]
  }

  predicate IsCoordinator(world: World, room: Id, agent: Id)
    requires room in world.rooms && agent in world.agents
  {
    agent in world.rooms[room].coordinators || world.agents[agent].mayCoordinate
  }

  function ReleaseError(rows: Rows, world: World, id: Id, actor: Id, token: int, force: bool): Option<LeaseError> {
    if id !in rows then Some(LeaseNotFound)
    else if rows[id].room !in world.rooms then Some(RoomNotFound)
    else if actor !in world.agents then Some(AgentNotFound)
    else if !rows[id].status.Active? then None
    else if rows[id].token != token then Some(StaleHolderOrToken)
    else if actor != rows[id].holder && !(force && IsCoordinator(world, rows[id].room, actor)) then
      Some(NotHolderNorCoordinator)
    else None
  }

  /** Releasing an ended lease succeeds and changes nothing. */
  function Release(rows: Rows, world: World, id: Id, actor: Id, token: int, force: bool): Rows {
    if ReleaseError(rows, world, id, actor, token, force).Some? || !rows[id].status.Active? then rows
    else rows[id := rows[id].(status := if force && actor != rows[id].holder then Revoked else Released)]
  }

  /* ---- Runs ---- */

  datatype Step =
    | DoAcquire(req: Acquisition, newId: Id)
    | DoRenew(id: Id, holder: Id, token: int, ttl: int)
    | DoRelease(id: Id, actor: Id, token: int, force: bool)
    | DoExpire

  /** A step at some time, while rooms, agents and work items are in some state or other. */
  datatype Event = Event(step: Step, world: World, now: Time)

  ghost function Apply(rows: Rows, e: Event): Rows {
    match e.step
    case DoAcquire(req, newId) => Acquire(rows, e.world, req, newId, e.now)
    case DoRenew(id, holder, token, ttl) => Renew(rows, e.world, id, holder, token, ttl, e.now)
    case DoRelease(id, actor, token, force) => Release(rows, e.world, id, actor, token, force)
    case DoExpire => ExpireStale(rows, e.now)
  }

  ghost function Run(rows: Rows, events: seq<Event>): Rows
    decreases events
  {
    if events == [] then rows else Run(Apply(rows, events[0]), events[1..])
  }

  /* ---- What every step keeps ---- */

  predicate Compatible(a: Lease, b: Lease) {
    !Incompatible(a.mode, a.reservations, a.branch, a.worktree, b)
  }

  /** Two active leases of one room are both readers, or disjoint with different branches and worktrees. */
  ghost predicate Exclusion(rows: Rows) {
    forall a, b :: (a in rows && b in rows && a != b && rows[a].room == rows[b].room
                    && rows[a].status.Active? && rows[b].status.Active?) ==> Compatible(rows[a], rows[b])
  }

  ghost predicate Fencing(rows: Rows) {
    && (forall id :: id in rows ==> rows[id].id == id && rows[id].token >= 1)
    && forall a, b ::
       a in rows && b in rows && a != b && rows[a].room == rows[b].room ==> rows[a].token != rows[b].token
  }

  ghost predicate Inv(rows: Rows) {
    Exclusion(rows) && Fencing(rows)
  }

  lemma CompatibleSymmetric(a: Lease, b: Lease)
    ensures Compatible(a, b) == Compatible(b, a)
  {
    forall x, y ensures Overlap(x, y) == Overlap(y, x) {
      OverlapSymmetric(x, y);
    }
    assert SetsOverlap(a.reservations, b.reservations) == SetsOverlap(b.reservations, a.reservations);
  }

  /** What never changes about a lease: all but its status and its expiry. */
  predicate SameLease(a: Lease, b: Lease) {
    b.(status := a.status, expiresAt := a.expiresAt) == a
  }

  /** Leases may end or be prolonged, but none is added and none becomes active. */
  ghost predicate OnlyEnds(before: Rows, after: Rows) {
    && before.Keys == after.Keys
    && forall id :: id in before ==>
         && SameLease(before[id], after[id])
         && (after[id].status.Active? ==> before[id].status.Active?)
         && (!before[id].status.Active? ==> after[id] == before[id])
  }

  lemma OnlyEndsKeepsInv(before: Rows, after: Rows)
    requires Inv(before) && OnlyEnds(before, after)
    ensures Inv(after)
  {
    forall a, b | a in after && b in after && a != b && after[a].room == after[b].room
                  && after[a].status.Active? && after[b].status.Active?
      ensures Compatible(after[a], after[b])
    {
      assert SameLease(before[a], after[a]) && SameLease(before[b], after[b]);
      assert Compatible(before[a], before[b]);
    }
    forall a, b | a in after && b in after && a != b && after[a].room == after[b].room
      ensures after[a].token != after[b].token
    {
      assert SameLease(before[a], after[a]) && SameLease(before[b], after[b]);
    }
  }

  lemma AcquireKeepsInv(rows: Rows, world: World, req: Acquisition, id: Id, now: Time)
    requires Inv(rows)
    ensures Inv(Acquire(rows, world, req, id, now))
  {
    hide HasKey, CheckRequest, Exclusion, Fencing, Incompatible;
    var live := ExpireStale(rows, now);
    OnlyEndsKeepsInv(rows, live);
    if !HasKey(rows, req.key) && AcquireError(live, world, req, id).None? {
      AddedLeaseKeepsInv(live, req, id, now);
    }
  }

  lemma AddedLeaseKeepsInv(live: Rows, req: Acquisition, id: Id, now: Time)
    requires Inv(live) && id !in live
    requires forall l :: l in live.Values ==> !Blocks(req, l)
    ensures Inv(live[id := NewLease(req, id, MaxToken(live, req.room) + 1, now)])
  {
    var added := NewLease(req, id, MaxToken(live, req.room) + 1, now);
    var after := live[id := added];
    forall b | b in live && live[b].room == req.room && live[b].status.Active?
      ensures Compatible(added, live[b]) && Compatible(live[b], added)
    {
      assert live[b] in live.Values;
      CompatibleSymmetric(added, live[b]);
    }
    assert Exclusion(after);
  }

  lemma RenewOnlyEnds(rows: Rows, world: World, id: Id, holder: Id, token: int, ttl: int, now: Time)
    ensures OnlyEnds(rows, Renew(rows, world, id, holder, token, ttl, now))
  {
    var live := ExpireStale(rows, now);
    assert OnlyEnds(rows, live);
    if RenewError(live, world, id, holder, token).None? {
      var renewed := live[id := live[id].(expiresAt := now + Clamp(ttl, 30, 3600))];
      assert OnlyEnds(live, renewed);
    }
  }

  lemma ReleaseOnlyEnds(rows: Rows, world: World, id: Id, actor: Id, token: int, force: bool)
    ensures OnlyEnds(rows, Release(rows, world, id, actor, token, force))
  {
  }

  /** Every operation keeps active leases apart and tokens distinct. */
  lemma StepKeepsInv(rows: Rows, e: Event)
    requires Inv(rows)
    ensures Inv(Apply(rows, e))
  {
    hide Inv;
    match e.step
    case DoAcquire(req, newId) =>
      AcquireKeepsInv(rows, e.world, req, newId, e.now);
    case DoRenew(id, holder, token, ttl) =>
      RenewOnlyEnds(rows, e.world, id, holder, token, ttl, e.now);
      OnlyEndsKeepsInv(rows, Apply(rows, e));
    case DoRelease(id, actor, token, force) =>
      ReleaseOnlyEnds(rows, e.world, id, actor, token, force);
      OnlyEndsKeepsInv(rows, Apply(rows, e));
    case DoExpire =>
      OnlyEndsKeepsInv(rows, Apply(rows, e));
  }

  /** In every reachable state active leases of a room exclude each other and no token is used twice in a room. */
  lemma {:induction false} RunKeepsInv(rows: Rows, events: seq<Event>)
    requires Inv(rows)
    ensures Inv(Run(rows, events))
    decreases events
  {
    if events != [] {
      StepKeepsInv(rows, events[0]);
      RunKeepsInv(Apply(rows, events[0]), events[1..]);
    }
  }

  /** No lease disappears or changes hands, paths or token, and one that has ended is never touched again. */
  ghost predicate Continues(before: Rows, after: Rows) {
    forall id :: id in before ==>
      && id in after
      && SameLease(before[id], after[id])
      && (!before[id].status.Active? ==> after[id] == before[id])
  }

  lemma StepContinues(rows: Rows, e: Event)
    ensures Continues(rows, Apply(rows, e))
  {
    hide AcquireError, RenewError, ReleaseError;
    match e.step
    case DoAcquire(req, newId) =>
      AcquireContinues(rows, e.world, req, newId, e.now);
    case DoRenew(id, holder, token, ttl) =>
      RenewOnlyEnds(rows, e.world, id, holder, token, ttl, e.now);
    case DoRelease(id, actor, token, force) =>
      ReleaseOnlyEnds(rows, e.world, id, actor, token, force);
    case DoExpire =>
  }

  lemma AcquireContinues(rows: Rows, world: World, req: Acquisition, id: Id, now: Time)
    ensures Continues(rows, Acquire(rows, world, req, id, now))
  {
    hide CheckRequest, Blocks;
    var live := ExpireStale(rows, now);
    assert Continues(rows, live);
    assert Acquire(rows, world, req, id, now) != rows && Acquire(rows, world, req, id, now) != live ==> id !in live;
  }

  /** Over any run, leases continue; in particular an ended lease never becomes active again. */
  lemma {:induction false} EndedLeaseStaysEnded(rows: Rows, events: seq<Event>)
    ensures Continues(rows, Run(rows, events))
    decreases events
  {
    if events != [] {
      var next, last := Apply(rows, events[0]), Run(rows, events);
      StepContinues(rows, events[0]);
      EndedLeaseStaysEnded(next, events[1..]);
      assert forall id :: id in rows ==> SameLease(rows[id], next[id]) && SameLease(next[id], last[id]);
    }
  }

  lemma NewTokenIsHighest(rows: Rows, e: Event, earlier: Id, later: Id)
    requires earlier in rows && later !in rows && later in Apply(rows, e)
    requires Apply(rows, e)[later].room == rows[earlier].room
    ensures Apply(rows, e)[later].token > rows[earlier].token
  {
    if e.step.DoAcquire? {
      var live := ExpireStale(rows, e.now);
      assert earlier in live && SameLease(rows[earlier], live[earlier]);
    }
  }

  /** A lease that appears during a run has a higher token than every lease its room had before the run. */
  lemma {:induction false} TokensIncrease(rows: Rows, events: seq<Event>, earlier: Id, later: Id)
    requires earlier in rows && later !in rows && later in Run(rows, events)
    requires Run(rows, events)[later].room == rows[earlier].room
    ensures Run(rows, events)[later].token > rows[earlier].token
    decreases events
  {
    assert events != [];
    var next := Apply(rows, events[0]);
    StepContinues(rows, events[0]);
    if later in next {
      EndedLeaseStaysEnded(next, events[1..]);
      NewTokenIsHighest(rows, events[0], earlier, later);
    } else {
      TokensIncrease(next, events[1..], earlier, later);
    }
  }

  /**
   * What the reservations are for. Two active leases of a room, not both readers,
   * never cover the same path, provided no path reservation of one and pattern of
   * the other are in the one case the overlap test misses.
   */
  lemma ActiveLeasesShareNoPath(rows: Rows, a: Id, b: Id, path: string)
    requires IsPath(path) && Inv(rows) && a in rows && b in rows && a != b && rows[a].room == rows[b].room
    requires rows[a].status.Active? && rows[b].status.Active?
    requires !(rows[a].mode.SharedRead? && rows[b].mode.SharedRead?)
    requires forall x, y :: x in rows[a].reservations && y in rows[b].reservations ==> !Missed(x, y) && !Missed(y, x)
    ensures !(LeaseCovers(rows[a], path) && LeaseCovers(rows[b], path))
  {
    if LeaseCovers(rows[a], path) && LeaseCovers(rows[b], path) {
      var x :| x in rows[a].reservations && Covers(x, path);
      var y :| y in rows[b].reservations && Covers(y, path);
      CommonPathIsSeen(x, y, path);
      assert Compatible(rows[a], rows[b]);
      assert SetsOverlap(rows[a].reservations, rows[b].reservations);
    }
  }

  lemma CommonPathIsSeen(x: Reservation, y: Reservation, path: string)
    requires IsPath(path) && Covers(x, path) && Covers(y, path) && !Missed(x, y) && !Missed(y, x)
    ensures Overlap(x, y)
  {
    assert Meet(x, y) && HaveCommonPath(x, y) && HaveCommonPath(y, x);
    if x.Path? && y.Path? {
      PathOverlapIsExact(x, y);
    } else if x.Glob? && y.Glob? {
      GlobOverlapIsSound(x, y);
    } else if x.Path? {
      PathGlobOverlapSoundUnlessMissed(x, y);
    } else {
      PathGlobOverlapSoundUnlessMissed(y, x);
      OverlapSymmetric(x, y);
    }
  }

  predicate LeaseCovers(l: Lease, path: string) {
    exists r :: r in l.reservations && Covers(r, path)
  }

  /* ---- Who may begin and end a lease ---- */

  /** A new lease is as asked for, lasts from 30 to 3600 seconds, and leaves all others but overdue ones alone. */
  lemma AcquiredAsRequested(rows: Rows, world: World, req: Acquisition, id: Id, now: Time)
    requires !HasKey(rows, req.key) && AcquireError(ExpireStale(rows, now), world, req, id).None?
    ensures var after := Acquire(rows, world, req, id, now);
            && id !in rows && id in after && after[id].status.Active? && 30 <= after[id].expiresAt - now <= 3600
            && (30 <= req.ttl <= 3600 ==> after[id].expiresAt == now + req.ttl)
            && after[id].holder == req.holder && after[id].room == req.room && after[id].mode == req.mode
            && after[id].reservations == req.reservations && after[id].key == req.key
            && after[id].origin == req.origin && after[id].resource == req.resource
            && after[id].branch == req.branch && after[id].worktree == req.worktree && after[id].base == req.base
            && (forall other :: other in rows && rows[other].room == req.room ==> rows[other].token < after[id].token)
            && forall other :: other in rows ==>
                 other in after
                   && (after[other] == rows[other] || (after[other].status.Expired? && rows[other].expiresAt <= now))
  {
    hide CheckRequest, Blocks;
    var live := ExpireStale(rows, now);
    assert IsMaxToken(live, req.room, MaxToken(live, req.room));
    forall other | other in rows && rows[other].room == req.room
      ensures rows[other].token <= MaxToken(live, req.room)
    {
      assert other in live && SameLease(rows[other], live[other]);
    }
  }

  /**
   * An acquisition under a known key changes nothing. Another one is granted if and
   * only if an active room, its holder, what it asks for and its work item are in
   * order, and every active lease of the room that has time left is a reader as it
   * is or is disjoint from it in paths, branch and worktree.
   */
  lemma AcquiredExactly(rows: Rows, world: World, req: Acquisition, id: Id, now: Time)
    requires id !in rows
    ensures (exists k :: k in rows && req.key.Some? && rows[k].key == req.key) ==>
              Acquire(rows, world, req, id, now) == rows
    ensures id in Acquire(rows, world, req, id, now) <==>
            && (forall k :: k in rows ==> req.key.None? || rows[k].key != req.key)
            && req.room in world.rooms && world.rooms[req.room].active
            && req.holder in world.agents && world.agents[req.holder].room == Some(req.room)
            && (req.origin == Server || req.resource.Some?)
            && 1 <= |req.reservations| <= 200
            && (req.mode.ExclusiveWrite? ==>
                  req.branch.Some? && req.base.Some? && req.worktree.Some? && req.worktree.value != ".")
            && (req.item.Some? ==>
                  && req.item.value in world.items && world.items[req.item.value].room == req.room
                  && world.items[req.item.value].assignee == Some(req.holder) && world.items[req.item.value].inProgress)
            && forall k ::
               k in rows && rows[k].room == req.room && rows[k].status.Active? && now < rows[k].expiresAt ==>
                 || (req.mode.SharedRead? && rows[k].mode.SharedRead?)
                 || (&& (forall a, b :: a in req.reservations && b in rows[k].reservations ==> !Overlap(a, b))
                     && (req.branch.Some? ==> rows[k].branch != req.branch)
                     && (req.worktree.Some? ==> rows[k].worktree != req.worktree))
  {
    hide Overlap;
    var live := ExpireStale(rows, now);
    if l :| l in live.Values && Blocks(req, l) {
      var k :| k in live && live[k] == l;
      assert live[k] == ExpireLease(rows[k], now);
    }
    forall k | k in rows && rows[k].room == req.room && rows[k].status.Active? && now < rows[k].expiresAt
      ensures live[k] == rows[k] && live[k] in live.Values
    {
    }
  }

  /** Renewal is for the holder with the token, in time, and makes the lease last from 30 to 3600 seconds from now. */
  lemma RenewedExactly(rows: Rows, world: World, id: Id, holder: Id, token: int, ttl: int, now: Time)
    requires id in rows && holder in world.agents
    ensures RenewError(ExpireStale(rows, now), world, id, holder, token).None? <==>
            rows[id].status.Active? && now < rows[id].expiresAt && rows[id].holder == holder && rows[id].token == token
    ensures RenewError(ExpireStale(rows, now), world, id, holder, token).None? ==>
              && Renew(rows, world, id, holder, token, ttl, now)[id].status.Active?
              && Renew(rows, world, id, holder, token, ttl, now)[id].expiresAt ==
                 now + if ttl < 30 then 30 else if ttl > 3600 then 3600 else ttl
  {
    assert ExpireStale(rows, now)[id] == ExpireLease(rows[id], now);
  }

  /** The agent may end the leases of others: it coordinates the room or has the capability. */
  predicate Coordinates(world: World, room: Id, agent: Id) {
    && room in world.rooms && agent in world.agents
    && (agent in world.rooms[room].coordinators || world.agents[agent].mayCoordinate)
  }

  /**
   * A release ends an active lease if and only if it has the token and comes from
   * the holder, or is forced by a coordinator. The holder's lease is then released,
   * that of another revoked.
   */
  lemma ReleasedExactly(rows: Rows, world: World, id: Id, actor: Id, token: int, force: bool)
    requires id in rows && rows[id].status.Active? && rows[id].room in world.rooms && actor in world.agents
    ensures var l, after := rows[id], Release(rows, world, id, actor, token, force);
            && id in after && after.Keys == rows.Keys && SameLease(l, after[id])
            && (after[id].status.Released? <==> token == l.token && actor == l.holder)
            && (after[id].status.Revoked? <==>
                token == l.token && actor != l.holder && force && Coordinates(world, l.room, actor))
            && (after[id].status.Active? <==> !after[id].status.Released? && !after[id].status.Revoked?)
            && after[id].expiresAt == l.expiresAt
            && forall other :: other in rows && other != id ==> after[other] == rows[other]
  {
  }

  /** The step looks for overdue leases: every request but a release does, unless its key is known. */
  ghost predicate Sweeps(rows: Rows, s: Step) {
    match s
    case DoAcquire(req, _) => !HasKey(rows, req.key)
    case DoRelease(_, _, _, _) => false
    case _ => true
  }

  /** The step presents the token of the lease and comes from its holder, or from a coordinator who forces it. */
  predicate GivesUp(l: Lease, e: Event) {
    && e.step.DoRelease? && e.step.id == l.id && e.step.token == l.token
    && l.room in e.world.rooms && e.step.actor in e.world.agents
    && (e.step.actor == l.holder || (e.step.force && Coordinates(e.world, l.room, e.step.actor)))
  }

  /** The time of the lease is over and somebody looks, or it is released or revoked. */
  ghost predicate EndsBy(rows: Rows, e: Event, id: Id) {
    && id in rows
    && ((Sweeps(rows, e.step) && rows[id].expiresAt <= e.now) || GivesUp(rows[id], e))
  }

  lemma StepEndsExactly(rows: Rows, e: Event, id: Id)
    requires Fencing(rows) && id in rows && rows[id].status.Active?
    ensures id in Apply(rows, e) && (!Apply(rows, e)[id].status.Active? <==> EndsBy(rows, e, id))
  {
    hide Acquire, Renew, HasKey;
    match e.step
    case DoAcquire(req, newId) => AcquireExpires(rows, e.world, req, newId, e.now, id);
    case DoRenew(renewed, holder, token, ttl) =>
      RenewExpires(rows, e.world, renewed, holder, token, ttl, e.now, id);
    case _ =>
  }

  lemma AcquireExpires(rows: Rows, world: World, req: Acquisition, newId: Id, now: Time, id: Id)
    requires id in rows
    ensures id in Acquire(rows, world, req, newId, now)
    ensures Acquire(rows, world, req, newId, now)[id] ==
            if HasKey(rows, req.key) then rows[id] else ExpireLease(rows[id], now)
  {
    hide CheckRequest, HasKey, Blocks;
  }

  lemma RenewExpires(rows: Rows, world: World, renewed: Id, holder: Id, token: int, ttl: int, now: Time, id: Id)
    requires id in rows
    ensures id in Renew(rows, world, renewed, holder, token, ttl, now)
    ensures Renew(rows, world, renewed, holder, token, ttl, now)[id].status == ExpireLease(rows[id], now).status
  {
  }

  ghost predicate EndedIn(rows: Rows, events: seq<Event>, id: Id)
    decreases events
  {
    events != [] && (EndsBy(rows, events[0], id) || EndedIn(Apply(rows, events[0]), events[1..], id))
  }

  /**
   * Over any run, a lease that was active has ended exactly when some step found
   * its time over, or its token was presented by its holder or by a coordinator
   * who forced the release.
   */
  lemma {:induction false} LeaseEndsOnlyBy(rows: Rows, events: seq<Event>, id: Id)
    requires Inv(rows) && id in rows && rows[id].status.Active?
    ensures id in Run(rows, events) && (!Run(rows, events)[id].status.Active? <==> EndedIn(rows, events, id))
    decreases events
  {
    hide Apply, Exclusion, EndsBy;
    if events != [] {
      var next := Apply(rows, events[0]);
      StepEndsExactly(rows, events[0], id);
      if EndsBy(rows, events[0], id) {
        EndedLeaseStaysEnded(next, events[1..]);
      } else {
        StepKeepsInv(rows, events[0]);
        LeaseEndsOnlyBy(next, events[1..], id);
      }
    }
  }

  /* ---- Writing under a lease ---- */

  /** The path as seen from a worktree root, if it lies under it. */
  function RelativeTo(root: string, path: string): Option<string> {
    if root == "." then Some(path)
    else if path == root then Some(".")
    else if Directory(root) <= path then Some(path[|Directory(root)|..])
    else None
  }

  function RootOf(l: Lease): string {
    if l.worktree.None? || l.worktree.value == "" then "." else l.worktree.value
  }

  predicate CoversWrite(l: Lease, origin: Origin, resource: Option<Id>, path: string) {
    && l.origin == origin && l.resource == resource
    && l.status.Active? && l.mode.ExclusiveWrite?
    && RelativeTo(RootOf(l), path).Some?
    && LeaseCovers(l, RelativeTo(RootOf(l), path).value)
  }

  datatype WriteRequest = WriteRequest(
    origin: Origin, resource: Option<Id>, path: string,
    lease: Option<Id>, agent: Option<Id>, room: Option<Id>, token: Option<int>,
    branch: Option<Id>, worktree: Option<string>, base: Option<Id>,
    expectedSha: Option<Id>, expectedAbsent: bool)

  datatype WriteError =
    | NothingCovers | MissingLease | MissingAgent | MissingRoom | BadToken | ReservedByAnother
    | StaleContext | MissingBranch | MissingWorktree | MissingBase | ContextMismatch | BadExpectation

  datatype WriteContext = WriteContext(lease: Id, agent: Id, room: Id, token: nat)

  predicate SuppliesGuard(w: WriteRequest) {
    w.lease.Some? || w.agent.Some? || w.room.Some? || w.token.Some? || w.branch.Some? || w.worktree.Some?
      || w.base.Some?
  }

  /** The checks made once some lease covers the path; `rows` are already free of stale leases. */
  function CheckWrite(rows: Rows, w: WriteRequest): Result<WriteContext, WriteError> {
    if w.lease.None? then Failure(MissingLease)
    else if w.agent.None? then Failure(MissingAgent)
    else if w.room.None? then Failure(MissingRoom)
    else if w.token.None? then Failure(BadToken)
    else if !(w.lease.value in rows && CoversWrite(rows[w.lease.value], w.origin, w.resource, w.path)) then
      Failure(ReservedByAnother)
    else
      var l, token := rows[w.lease.value], Clamp(w.token.value, 1, MAX_TOKEN);
      if l.room != w.room.value || l.holder != w.agent.value || l.token != token then Failure(StaleContext)
      else if w.branch.None? then Failure(MissingBranch)
      else if w.worktree.None? then Failure(MissingWorktree)
      else if w.base.None? then Failure(MissingBase)
      else if w.branch != l.branch || w.worktree != l.worktree || w.base != l.base then Failure(ContextMismatch)
      else if w.expectedSha.Some? == w.expectedAbsent then Failure(BadExpectation)
      else Success(WriteContext(w.lease.value, w.agent.value, w.room.value, token))
  }

  /** `validate_write_context` at time `now`: None for a path that no lease covers and no guard is given for. */
  function ValidateWrite(rows: Rows, w: WriteRequest, now: Time): Result<Option<WriteContext>, WriteError> {
    var live := ExpireStale(rows, now);
    if !(exists id :: id in live && CoversWrite(live[id], w.origin, w.resource, w.path)) then
      if SuppliesGuard(w) then Failure(NothingCovers) else Success(None)
    else
      var checked := CheckWrite(live, w);
      if checked.Success? then Success(Some(checked.value)) else Failure(checked.error)
  }

  /** The write is let through under this lease. */
  predicate Admits(rows: Rows, w: WriteRequest, now: Time, id: Id) {
    var r := ValidateWrite(rows, w, now);
    r.Success? && r.value.Some? && r.value.value.lease == id
  }

  /** The request names the lease and presents everything that belongs to it. */
  predicate PresentsLease(w: WriteRequest, l: Lease) {
    && w.lease == Some(l.id) && w.agent == Some(l.holder) && w.room == Some(l.room)
    && w.token.Some? && Clamp(w.token.value, 1, MAX_TOKEN) == l.token
    && w.branch.Some? && w.branch == l.branch
    && w.worktree.Some? && w.worktree == l.worktree
    && w.base.Some? && w.base == l.base
    && (w.expectedSha.Some? <==> !w.expectedAbsent)
  }

  /**
   * A write is let through under a lease exactly when that lease is an active,
   * unexpired writer's lease covering the path and the request presents it.
   */
  lemma WriteAdmittedExactly(rows: Rows, w: WriteRequest, now: Time, id: Id)
    requires Fencing(rows)
    ensures Admits(rows, w, now, id) <==>
            id in rows && rows[id].expiresAt > now && PresentsLease(w, rows[id])
            && CoversWrite(rows[id], w.origin, w.resource, w.path)
  {
    hide LeaseCovers, RelativeTo;
    var live := ExpireStale(rows, now);
    if id in rows {
      assert live[id] == ExpireLease(rows[id], now);
      assert CoversWrite(live[id], w.origin, w.resource, w.path) <==>
             rows[id].expiresAt > now && CoversWrite(rows[id], w.origin, w.resource, w.path);
      assert PresentsLease(w, live[id]) <==> PresentsLease(w, rows[id]);
    }
    CheckedExactly(live, w, id);
  }

  /** Nothing of a lease is presented. */
  predicate IsPlain(w: WriteRequest) {
    && w.lease.None? && w.agent.None? && w.room.None? && w.token.None?
    && w.branch.None? && w.worktree.None? && w.base.None?
  }

  /**
   * A write passes without a lease exactly when it presents nothing of one and no
   * active, unexpired writer's lease covers the path. If it presents something, that
   * no lease covers the path is the error; otherwise some lease is missing or wrong.
   */
  lemma UnguardedPassesExactly(rows: Rows, w: WriteRequest, now: Time)
    ensures var covered := exists id :: id in rows && now < rows[id].expiresAt
                                        && CoversWrite(rows[id], w.origin, w.resource, w.path);
            && (ValidateWrite(rows, w, now) == Success(None) <==> IsPlain(w) && !covered)
            && (ValidateWrite(rows, w, now) == Failure(NothingCovers) <==> !IsPlain(w) && !covered)
            && (IsPlain(w) && covered ==> ValidateWrite(rows, w, now) == Failure(MissingLease))
  {
    hide LeaseCovers, RelativeTo;
    var live := ExpireStale(rows, now);
    forall id | id in rows
      ensures CoversWrite(live[id], w.origin, w.resource, w.path) <==>
              now < rows[id].expiresAt && CoversWrite(rows[id], w.origin, w.resource, w.path)
    {
      assert live[id] == ExpireLease(rows[id], now);
    }
  }

  /* ---- Paths inside a worktree ---- */

  lemma RelativeToJoined(root: string, p: string)
    requires IsPath(root) && IsPath(p)
    ensures RelativeTo(root, Joined(root, p)) == Some(p)
  {
    if root != "." && p != "." {
      RootHasNoSlash(root);
      assert (root + "/" + p)[|root| + 1..] == p;
    }
  }

  lemma RelativeIsJoined(root: string, path: string)
    requires IsPath(root) && IsPath(path) && RelativeTo(root, path).Some?
    ensures IsPath(RelativeTo(root, path).value) && path == Joined(root, RelativeTo(root, path).value)
  {
    if root != "." && path != root {
      RootHasNoSlash(root);
      var p := RelativeTo(root, path).value;
      assert path == root + ("/" + p) && path != ".";
      PathInside(Empty, root, "/" + p);
      assert ("/" + p)[1..] == p;
      DotIsNoName();
      assert IsPath(p) && p != "." && path == Joined(root, p);
    }
  }

  /**
   * A lease covers a write exactly when it is an active writer's lease for the place
   * and the path is that of a file of its worktree which a reservation covers.
   */
  lemma CoveredThroughWorktree(l: Lease, origin: Origin, resource: Option<Id>, path: string)
    requires IsPath(RootOf(l)) && IsPath(path)
    ensures CoversWrite(l, origin, resource, path) <==>
            && l.origin == origin && l.resource == resource && l.status.Active? && l.mode.ExclusiveWrite?
            && exists p, r :: IsPath(p) && path == Joined(RootOf(l), p) && r in l.reservations && Covers(r, p)
  {
    hide Joined, RelativeTo, Covers, IsPath;
    var root := RootOf(l);
    if RelativeTo(root, path).Some? {
      RelativeIsJoined(root, path);
    }
    if p, r :| IsPath(p) && path == Joined(root, p) && r in l.reservations && Covers(r, p) {
      RelativeToJoined(root, p);
    }
  }

  lemma CheckedExactly(live: Rows, w: WriteRequest, id: Id)
    requires forall k :: k in live ==> live[k].id == k
    ensures CheckWrite(live, w).Success? && CheckWrite(live, w).value.lease == id <==>
            id in live && PresentsLease(w, live[id]) && CoversWrite(live[id], w.origin, w.resource, w.path)
  {
    hide LeaseCovers, RelativeTo;
  }

  /**
   * Because tokens are clamped and not refused, a write is let through with another
   * number than the token of its lease exactly when it would be with the token, and
   * the token is 1 and the number below it, or the token is the highest possible
   * one and the number above it.
   */
  lemma TokenComparedAfterClamping(rows: Rows, w: WriteRequest, now: Time, id: Id, given: int)
    requires Fencing(rows) && id in rows
    ensures var token := rows[id].token;
            Admits(rows, w.(token := Some(given)), now, id) <==>
              && Admits(rows, w.(token := Some(token)), now, id)
              && (given == token || (given < 1 == token) || (given > MAX_TOKEN == token))
  {
    hide CoversWrite, Admits;
    WriteAdmittedExactly(rows, w.(token := Some(given)), now, id);
    WriteAdmittedExactly(rows, w.(token := Some(rows[id].token as int)), now, id);
  }

  /** Once a lease has ended, no write is ever let through under it again, whatever token is presented. */
  lemma EndedLeaseRefusedForever(rows: Rows, events: seq<Event>, w: WriteRequest, now: Time, id: Id)
    requires Inv(rows) && id in rows && !rows[id].status.Active?
    ensures !Admits(Run(rows, events), w, now, id)
  {
    EndedLeaseStaysEnded(rows, events);
    RunKeepsInv(rows, events);
    WriteAdmittedExactly(Run(rows, events), w, now, id);
  }

  /** A lease that has run out is as good as ended: it is refused from its expiry on, unless renewed before. */
  lemma OverdueLeaseRefused(rows: Rows, w: WriteRequest, now: Time, id: Id)
    requires Fencing(rows) && id in rows && rows[id].expiresAt <= now
    ensures !Admits(rows, w, now, id)
    ensures forall world, holder, token, ttl :: !Renew(rows, world, id, holder, token, ttl, now)[id].status.Active?
  {
    WriteAdmittedExactly(rows, w, now, id);
  }
}
