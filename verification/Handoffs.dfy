/**
 * Handoff barriers: an agent hands the changes it made under a lease to another
 * agent, who accepts them only after the lease has ended and only if they do not
 * collide with the changes they are compared with.
 */
module Handoffs {
  import opened Common
  import opened Leases
  import opened Conflicts

  datatype BarrierStatus = Open | Ready | Blocked | Accepted

  /** A conflict report with the ids of the changes it is about. */
  datatype Evidence = Evidence(report: Report, candidates: seq<Id>, comparisons: seq<Id>)

  datatype Barrier = Barrier(
    id: Id, room: Id, source: Id, target: Id, lease: Id, token: int, required: seq<Id>,
    key: Option<Id>, status: BarrierStatus, evidence: Option<Evidence>)

  /** The tables of one owner. `newestFirst` lists the recorded changes by time of recording. */
  datatype Ledger = Ledger(leases: Rows, changes: map<Id, Change>, newestFirst: seq<Id>, barriers: map<Id, Barrier>)

  datatype HandoffError =
    | NoSuchRoom | NoSuchAgent | AgentElsewhere | NoSuchLease | StaleLeaseContext | LeaseNotActive
    | ChangeNotFound | ForeignChanges | BarrierNotFound | BarrierIdTaken | NotSource | NotTarget
    | NotReady | LeaseStillActive | HardConflicts

  datatype HandoffRequest = HandoffRequest(
    room: Id, source: Id, target: Id, lease: Id, token: int, required: seq<Id>, key: Option<Id>)

  const COMPARISON_LIMIT: nat := 2000

  /* ---- Looking changes up ---- */

  /** The first occurrences, in order. */
  function Unique(ids: seq<Id>): (u: seq<Id>)
    ensures forall id :: id in u <==> id in ids
    ensures Distinct(u)
  {
    if ids == [] then []
    else
      var last, u := ids[|ids| - 1], Unique(ids[..|ids| - 1]);
      assert ids == ids[..|ids| - 1] + [last];
      if last in u then u else u + [last]
  }

  predicate AllFound(changes: map<Id, Change>, room: Id, ids: seq<Id>) {
    forall id :: id in ids ==> id in changes && changes[id].room == Some(room)
  }

  function ChangesOf(changes: map<Id, Change>, ids: seq<Id>): (r: seq<Change>)
    requires forall id :: id in ids ==> id in changes
    ensures forall c :: c in r <==> exists id :: id in ids && c == changes[id]
  {
    var r := seq(|ids|, i requires 0 <= i < |ids| => changes[ids[i]]);
    assert forall i :: 0 <= i < |ids| ==> r[i] == changes[ids[i]];
    r
  }

  predicate MadeUnder(changes: map<Id, Change>, ids: seq<Id>, lease: Id, token: int)
    requires forall id :: id in ids ==> id in changes
  {
    forall id :: id in ids ==>
      changes[id].lease == Some(lease) && changes[id].token.Some? && changes[id].token.value == token
  }

  function InRoom(l: Ledger, room: Id, ids: seq<Id>): (r: seq<Id>)
    requires forall id :: id in ids ==> id in l.changes
    ensures forall id :: id in r <==> id in ids && l.changes[id].room == Some(room)
    ensures Distinct(ids) ==> Distinct(r)
  {
    if ids == [] then []
    else
      var last, rest := ids[|ids| - 1], ids[..|ids| - 1];
      assert ids == rest + [last];
      InRoom(l, room, rest) + if l.changes[last].room == Some(room) then [last] else []
  }

  function Without(ids: seq<Id>, dropped: seq<Id>): (r: seq<Id>)
    ensures forall id :: id in r <==> id in ids && id !in dropped
    ensures Distinct(ids) ==> Distinct(r)
  {
    if ids == [] then []
    else
      var last, rest := ids[|ids| - 1], ids[..|ids| - 1];
      assert ids == rest + [last];
      Without(rest, dropped) + if last in dropped then [] else [last]
  }

  function Newest(ids: seq<Id>, limit: nat): (r: seq<Id>)
    ensures forall id :: id in r ==> id in ids
    ensures Distinct(ids) ==> Distinct(r)
  {
    if |ids| <= limit then ids else ids[..limit]
  }

  /** The given changes, or by default the newest ones of the room other than the candidates. */
  function Comparisons(l: Ledger, room: Id, candidates: seq<Id>, given: Option<seq<Id>>): (r: seq<Id>)
    requires WellFormed(l)
    ensures given.None? ==> AllFound(l.changes, room, r)
    ensures Distinct(r)
  {
    if given.Some? then Unique(given.value)
    else Without(Newest(InRoom(l, room, l.newestFirst), COMPARISON_LIMIT), candidates)
  }

  ghost predicate WellFormed(l: Ledger) {
    && (forall id :: id in l.changes ==> l.changes[id].id == id)
    && (forall id :: id in l.newestFirst <==> id in l.changes) && Distinct(l.newestFirst)
    && (forall id :: id in l.barriers ==> l.barriers[id].id == id)
  }

  /* ---- The three operations ---- */

  function CreateError(l: Ledger, world: World, req: HandoffRequest, id: Id): Option<HandoffError> {
    var token := Clamp(req.token, 1, MAX_TOKEN);
    if req.room !in world.rooms then Some(NoSuchRoom)
    else if req.source !in world.agents || req.target !in world.agents then Some(NoSuchAgent)
    else if world.agents[req.source].room != Some(req.room) || world.agents[req.target].room != Some(req.room) then
      Some(AgentElsewhere)
    else if req.lease !in l.leases then Some(NoSuchLease)
    else if l.leases[req.lease].room != req.room || l.leases[req.lease].holder != req.source
      || l.leases[req.lease].token != token then
      Some(StaleLeaseContext)
    else if !l.leases[req.lease].status.Active? then Some(HandoffError.LeaseNotActive)
    else if !AllFound(l.changes, req.room, req.required) then Some(ChangeNotFound)
    else if !MadeUnder(l.changes, req.required, req.lease, token) then Some(ForeignChanges)
    else if id in l.barriers then Some(BarrierIdTaken)
    else None
  }

  predicate KnownKey(l: Ledger, key: Option<Id>) {
    key.Some? && exists id :: id in l.barriers && l.barriers[id].key == key
  }

  function Create(l: Ledger, world: World, req: HandoffRequest, id: Id): Ledger {
    if KnownKey(l, req.key) || CreateError(l, world, req, id).Some? then l
    else
      l.(barriers := l.barriers[id := Barrier(id, req.room, req.source, req.target, req.lease,
                                              Clamp(req.token, 1, MAX_TOKEN),
                                              req.required, req.key, Open, None)])
  }

  function MarkReadyError(l: Ledger, id: Id, source: Id): Option<HandoffError> {
    if id !in l.barriers then Some(BarrierNotFound)
    else
      var b := l.barriers[id];
      if b.source != source then Some(NotSource)
      else if b.status.Accepted? then None
      else if b.lease !in l.leases then Some(NoSuchLease)
      else if l.leases[b.lease].token != b.token then Some(StaleLeaseContext)
      else if !AllFound(l.changes, b.room, b.required) then Some(ChangeNotFound)
      else if !MadeUnder(l.changes, b.required, b.lease, b.token) then Some(ForeignChanges)
      else None
  }

  /** Accepted barriers stay as they are; a blocked one can be marked ready again. */
  function MarkReady(l: Ledger, id: Id, source: Id): Ledger {
    if MarkReadyError(l, id, source).Some? || l.barriers[id].status.Accepted? then l
    else l.(barriers := l.barriers[id := l.barriers[id].(status := Ready)])
  }

  /** What stands in the way of comparing the changes at all. */
  function AcceptError(l: Ledger, id: Id, target: Id, given: Option<seq<Id>>): Option<HandoffError> {
    if id !in l.barriers then Some(BarrierNotFound)
    else
      var b := l.barriers[id];
      if b.target != target then Some(NotTarget)
      else if b.status.Accepted? then None
      else if !b.status.Ready? then Some(NotReady)
      else if b.lease !in l.leases then Some(NoSuchLease)
      else if l.leases[b.lease].status.Active? then Some(LeaseStillActive)
      else if !AllFound(l.changes, b.room, b.required) then Some(ChangeNotFound)
      else if given.Some? && !AllFound(l.changes, b.room, given.value) then Some(ChangeNotFound)
      else None
  }

  function Compare(l: Ledger, b: Barrier, given: Option<seq<Id>>): Evidence
    requires WellFormed(l) && AllFound(l.changes, b.room, b.required)
    requires given.Some? ==> AllFound(l.changes, b.room, given.value)
  {
    var candidates := Unique(b.required);
    var others := Comparisons(l, b.room, candidates, given);
    Evidence(ReportOn(ChangesOf(l.changes, candidates), ChangesOf(l.changes, others)), candidates, others)
  }

  function Accept(l: Ledger, id: Id, target: Id, given: Option<seq<Id>>): Ledger
    requires WellFormed(l)
  {
    if AcceptError(l, id, target, given).Some? || l.barriers[id].status.Accepted? then l
    else
      var b := l.barriers[id];
      var evidence := Compare(l, b, given);
      l.(barriers := l.barriers[id := b.(status := if evidence.report.safe then Accepted else Blocked,
                                         evidence := Some(evidence))])
  }

  /* ---- Runs ---- */

  datatype Action =
    | OnLeases(event: Event)
    | Record(change: Change)
    | DoCreate(world: World, req: HandoffRequest, newId: Id)
    | DoMarkReady(id: Id, source: Id)
    | DoAccept(id: Id, target: Id, given: Option<seq<Id>>)

  /** Changes are recorded once and never altered. */
  function RecordChange(l: Ledger, c: Change): Ledger {
    if c.id in l.changes then l else l.(changes := l.changes[c.id := c], newestFirst := [c.id] + l.newestFirst)
  }

  ghost function Perform(l: Ledger, a: Action): Ledger
    requires WellFormed(l)
  {
    match a
    case OnLeases(event) => l.(leases := Apply(l.leases, event))
    case Record(change) => RecordChange(l, change)
    case DoCreate(world, req, newId) => Create(l, world, req, newId)
    case DoMarkReady(id, source) => MarkReady(l, id, source)
    case DoAccept(id, target, given) => Accept(l, id, target, given)
  }

  ghost function Replay(l: Ledger, actions: seq<Action>): (after: Ledger)
    requires WellFormed(l)
    ensures WellFormed(after)
    decreases actions
  {
    if actions == [] then l
    else
      PerformKeepsWellFormed(l, actions[0]);
      Replay(Perform(l, actions[0]), actions[1..])
  }

  lemma PerformKeepsWellFormed(l: Ledger, a: Action)
    requires WellFormed(l)
    ensures WellFormed(Perform(l, a))
  {
    hide CreateError, Compare, AllFound;
    if a.Record? && a.change.id !in l.changes {
      var ids := [a.change.id] + l.newestFirst;
      assert forall id :: id in ids <==> id == a.change.id || id in l.newestFirst;
      assert RecordChange(l, a.change).newestFirst == ids;
    }
  }

  /* ---- Who may hand over what ---- */

  /**
   * A handoff is created exactly by an agent of the room that holds the lease, under
   * its current token and while it is active, to another agent of the room, and for
   * changes that were recorded in the room under that lease and token.
   */
  lemma CreatedExactly(l: Ledger, world: World, req: HandoffRequest, id: Id)
    requires id !in l.barriers && (req.key.Some? ==> forall b :: b in l.barriers ==> l.barriers[b].key != req.key)
    ensures var token := Clamp(req.token, 1, MAX_TOKEN);
            var after := Create(l, world, req, id);
            if && req.room in world.rooms && req.source in world.agents && req.target in world.agents
               && world.agents[req.source].room == Some(req.room) && world.agents[req.target].room == Some(req.room)
               && req.lease in l.leases && l.leases[req.lease].room == req.room
               && l.leases[req.lease].holder == req.source && l.leases[req.lease].token == token
               && l.leases[req.lease].status.Active?
               && forall c :: c in req.required ==>
                    && c in l.changes && l.changes[c].room == Some(req.room)
                    && l.changes[c].lease == Some(req.lease) && l.changes[c].token.Some?
                    && l.changes[c].token.value == token
            then
              && after == l.(barriers := after.barriers) && after.barriers.Keys == l.barriers.Keys + {id}
              && (forall b :: b in l.barriers ==> after.barriers[b] == l.barriers[b])
              && var b := after.barriers[id];
                 && b.room == req.room && b.source == req.source && b.target == req.target && b.lease == req.lease
                 && b.token == token && b.required == req.required && b.key == req.key
                 && b.status.Open? && b.evidence.None?
            else after == l
  {
  }

  /** A request with a known key changes nothing. */
  lemma KnownKeyChangesNothing(l: Ledger, world: World, req: HandoffRequest, id: Id, known: Id)
    requires known in l.barriers && req.key.Some? && l.barriers[known].key == req.key
    ensures Create(l, world, req, id) == l
  {
  }

  /** Only its source marks a handoff ready, and it always can until the handoff is accepted. */
  lemma ReadyExactly(l: Ledger, id: Id, source: Id)
    requires BarriersSound(l) && id in l.barriers && !l.barriers[id].status.Accepted?
    ensures MarkReady(l, id, source) ==
            if source == l.barriers[id].source then l.(barriers := l.barriers[id := l.barriers[id].(status := Ready)])
            else l
  {
    hide MadeUnder, AllFound, ShownSafe;
    assert Sound(l, l.barriers[id]);
  }

  /* ---- What a handoff is compared with by default ---- */

  /** The changes of the room that were recorded after the one at a place of the list. */
  function NewerInRoom(l: Ledger, room: Id, i: nat): set<Id>
    requires i <= |l.newestFirst|
  {
    set x | x in l.newestFirst[..i] && x in l.changes && l.changes[x].room == Some(room)
  }

  lemma {:induction false} InRoomKeepsOrder(l: Ledger, room: Id, ids: seq<Id>, i: nat)
    requires (forall id :: id in ids ==> id in l.changes) && i < |ids| && l.changes[ids[i]].room == Some(room)
    ensures forall id :: id in ids[..i] ==> id in l.changes
    ensures |InRoom(l, room, ids[..i])| < |InRoom(l, room, ids)|
    ensures InRoom(l, room, ids)[|InRoom(l, room, ids[..i])|] == ids[i]
  {
    var rest := ids[..|ids| - 1];
    assert ids == rest + [ids[|ids| - 1]];
    if i < |ids| - 1 {
      assert rest[..i] == ids[..i];
      InRoomKeepsOrder(l, room, rest, i);
    } else {
      assert ids[..i] == rest;
    }
  }

  lemma NewerStep(l: Ledger, room: Id, i: nat)
    requires WellFormed(l) && i < |l.newestFirst|
    ensures l.newestFirst[i] in l.changes
    ensures |NewerInRoom(l, room, i + 1)| ==
            |NewerInRoom(l, room, i)| + if l.changes[l.newestFirst[i]].room == Some(room) then 1 else 0
  {
    var last := l.newestFirst[i];
    assert l.newestFirst[..i + 1] == l.newestFirst[..i] + [last];
    assert last !in NewerInRoom(l, room, i);
    assert NewerInRoom(l, room, i + 1) ==
           NewerInRoom(l, room, i) + if l.changes[last].room == Some(room) then {last} else {};
  }

  lemma {:induction false} InRoomIsCounted(l: Ledger, room: Id, i: nat)
    requires WellFormed(l) && i <= |l.newestFirst|
    ensures forall id :: id in l.newestFirst[..i] ==> id in l.changes
    ensures |InRoom(l, room, l.newestFirst[..i])| == |NewerInRoom(l, room, i)|
  {
    hide NewerInRoom;
    if i > 0 {
      NewerStep(l, room, i - 1);
      InRoomIsCounted(l, room, i - 1);
      assert l.newestFirst[..i][..i - 1] == l.newestFirst[..i - 1];
    } else {
      NoneNewer(l, room);
    }
  }

  lemma NoneNewer(l: Ledger, room: Id)
    ensures NewerInRoom(l, room, 0) == {}
  {
  }

  /** By default a handoff is compared with the newest 2000 changes of its room, less those that are handed over. */
  lemma ComparedByDefault(l: Ledger, room: Id, candidates: seq<Id>, i: nat)
    requires WellFormed(l) && i < |l.newestFirst|
    ensures l.newestFirst[i] in Comparisons(l, room, candidates, None) <==>
            && l.newestFirst[i] in l.changes && l.changes[l.newestFirst[i]].room == Some(room)
            && l.newestFirst[i] !in candidates && |NewerInRoom(l, room, i)| < 2000
  {
    var id := l.newestFirst[i];
    var all := InRoom(l, room, l.newestFirst);
    InRoomIsCounted(l, room, i);
    if l.changes[id].room == Some(room) {
      InRoomKeepsOrder(l, room, l.newestFirst, i);
      var k := |NewerInRoom(l, room, i)|;
      assert all[k] == id && Distinct(all);
      assert id in Newest(all, COMPARISON_LIMIT) <==> k < COMPARISON_LIMIT by {
        if k < COMPARISON_LIMIT < |all| {
          assert all[..COMPARISON_LIMIT][k] == id;
        }
      }
    }
  }

  /* ---- What holds of every barrier ---- */

  /** The barrier's lease and changes are the ones it was created for. */
  ghost predicate Bound(l: Ledger, b: Barrier) {
    && b.lease in l.leases
    && l.leases[b.lease].room == b.room && l.leases[b.lease].holder == b.source && l.leases[b.lease].token == b.token
    && AllFound(l.changes, b.room, b.required)
    && MadeUnder(l.changes, b.required, b.lease, b.token)
  }

  /** The evidence compares every required change with the listed ones and finds no collision. */
  ghost predicate ShownSafe(l: Ledger, b: Barrier) {
    && b.evidence.Some?
    && (forall id :: id in b.evidence.value.candidates <==> id in b.required)
    && AllFound(l.changes, b.room, b.evidence.value.candidates)
    && AllFound(l.changes, b.room, b.evidence.value.comparisons)
    && forall c, o :: c in b.evidence.value.candidates && o in b.evidence.value.comparisons
                      ==> !Collide(l.changes[c], l.changes[o])
  }

  ghost predicate Sound(l: Ledger, b: Barrier) {
    && Bound(l, b)
    && (b.status.Blocked? || b.status.Accepted? ==> !l.leases[b.lease].status.Active?)
    && (b.status.Accepted? ==> ShownSafe(l, b))
  }

  ghost predicate BarriersSound(l: Ledger) {
    WellFormed(l) && forall id :: id in l.barriers ==> Sound(l, l.barriers[id])
  }

  lemma WellFormedIfSound(l: Ledger)
    requires BarriersSound(l)
    ensures WellFormed(l)
  {
  }

  /** Leases continue and changes stay; barriers may differ. */
  ghost predicate Grows(before: Ledger, after: Ledger) {
    && Continues(before.leases, after.leases)
    && forall id :: id in before.changes ==> id in after.changes && after.changes[id] == before.changes[id]
  }

  lemma GrowthKeepsSound(before: Ledger, after: Ledger, b: Barrier)
    requires Grows(before, after) && Sound(before, b)
    ensures Sound(after, b)
  {
    hide Collide;
    assert SameLease(before.leases[b.lease], after.leases[b.lease]);
  }

  lemma PerformGrows(l: Ledger, a: Action)
    requires WellFormed(l)
    ensures Grows(l, Perform(l, a))
  {
    hide CreateError, MarkReadyError, AcceptError, Compare;
    if a.OnLeases? {
      StepContinues(l.leases, a.event);
    }
  }

  lemma AcceptedIsShownSafe(l: Ledger, id: Id, target: Id, given: Option<seq<Id>>)
    requires BarriersSound(l) && AcceptError(l, id, target, given).None? && !l.barriers[id].status.Accepted?
    requires Accept(l, id, target, given).barriers[id].status.Accepted?
    ensures ShownSafe(l, Accept(l, id, target, given).barriers[id])
  {
    hide Collide, ReportOn;
    var b := l.barriers[id];
    var e := Compare(l, b, given);
    SafeExactlyWhenNothingCollides(ChangesOf(l.changes, e.candidates), ChangesOf(l.changes, e.comparisons));
    forall c, o | c in e.candidates && o in e.comparisons ensures !Collide(l.changes[c], l.changes[o]) {
      assert l.changes[c] in ChangesOf(l.changes, e.candidates);
      assert l.changes[o] in ChangesOf(l.changes, e.comparisons);
    }
  }

  lemma PerformKeepsSound(l: Ledger, a: Action)
    requires BarriersSound(l)
    ensures BarriersSound(Perform(l, a))
  {
    hide Sound, Compare, ShownSafe;
    var after := Perform(l, a);
    PerformKeepsWellFormed(l, a);
    PerformGrows(l, a);
    forall id | id in after.barriers ensures Sound(after, after.barriers[id]) {
      if id in l.barriers && after.barriers[id] == l.barriers[id] {
        GrowthKeepsSound(l, after, l.barriers[id]);
      } else {
        ChangedBarrierSound(l, a, id);
      }
    }
  }

  lemma ChangedBarrierSound(l: Ledger, a: Action, id: Id)
    requires BarriersSound(l) && id in Perform(l, a).barriers
    requires id in l.barriers ==> Perform(l, a).barriers[id] != l.barriers[id]
    ensures Sound(Perform(l, a), Perform(l, a).barriers[id])
  {
    hide Compare, ShownSafe;
    if id in l.barriers {
      assert Sound(l, l.barriers[id]);
    }
    if a.DoAccept? && Perform(l, a).barriers[id].status.Accepted? {
      AcceptedIsShownSafe(l, id, a.target, a.given);
      SafetyNeedsOnlyChanges(l, Perform(l, a), Perform(l, a).barriers[id]);
    }
  }

  lemma SafetyNeedsOnlyChanges(before: Ledger, after: Ledger, b: Barrier)
    requires before.changes == after.changes && ShownSafe(before, b)
    ensures ShownSafe(after, b)
  {
  }

  /** In every reachable state an accepted handoff rests on a lease that has ended and on changes shown safe. */
  lemma {:induction false} ReplayKeepsSound(l: Ledger, actions: seq<Action>)
    requires BarriersSound(l)
    ensures BarriersSound(Replay(l, actions))
    decreases actions
  {
    if actions != [] {
      PerformKeepsSound(l, actions[0]);
      ReplayKeepsSound(Perform(l, actions[0]), actions[1..]);
    }
  }

  /** The collisions a comparison is about. */
  ghost predicate SomeCollision(l: Ledger, candidates: seq<Id>, others: seq<Id>)
    requires forall id :: id in candidates || id in others ==> id in l.changes
  {
    exists c, o :: c in candidates && o in others && Collide(l.changes[c], l.changes[o])
  }

  lemma ReportIsAboutCollisions(l: Ledger, b: Barrier, given: Option<seq<Id>>)
    requires WellFormed(l) && AllFound(l.changes, b.room, b.required)
    requires given.Some? ==> AllFound(l.changes, b.room, given.value)
    ensures Compare(l, b, given).report.safe <==>
            !SomeCollision(l, b.required, Comparisons(l, b.room, Unique(b.required), given))
  {
    hide Collide, ReportOn, Comparisons;
    var candidates := Unique(b.required);
    var others := Comparisons(l, b.room, candidates, given);
    ComparisonsFound(l, b.room, candidates, given);
    var cs, os := ChangesOf(l.changes, candidates), ChangesOf(l.changes, others);
    SafeExactlyWhenNothingCollides(cs, os);
    if c, o :| c in b.required && o in others && Collide(l.changes[c], l.changes[o]) {
      assert l.changes[c] in cs && l.changes[o] in os;
    }
    if x, y :| x in cs && y in os && Collide(x, y) {
      var c :| c in candidates && x == l.changes[c];
      var o :| o in others && y == l.changes[o];
      assert c in b.required;
    }
  }

  lemma ComparisonsFound(l: Ledger, room: Id, candidates: seq<Id>, given: Option<seq<Id>>)
    requires WellFormed(l) && (given.Some? ==> AllFound(l.changes, room, given.value))
    ensures AllFound(l.changes, room, Comparisons(l, room, candidates, given))
  {
  }

  /**
   * Accepting a ready handoff: it goes through exactly when the source lease has
   * ended, the changes asked for exist in the room and none of the handed-over
   * changes collides with one of them; a collision, and only that, blocks it.
   */
  lemma AcceptedExactlyWhen(l: Ledger, id: Id, target: Id, given: Option<seq<Id>>)
    requires BarriersSound(l) && id in l.barriers && l.barriers[id].status.Ready?
    ensures var b, after := l.barriers[id], Accept(l, id, target, given).barriers[id].status;
            var comparable := target == b.target && !l.leases[b.lease].status.Active?
                              && (given.Some? ==> AllFound(l.changes, b.room, given.value));
            && (after.Accepted? <==>
                comparable && !SomeCollision(l, b.required, Comparisons(l, b.room, Unique(b.required), given)))
            && (after.Blocked? <==>
                comparable && SomeCollision(l, b.required, Comparisons(l, b.room, Unique(b.required), given)))
  {
    hide Comparisons, Compare, SomeCollision, ShownSafe, MadeUnder;
    var b := l.barriers[id];
    assert Sound(l, b);
    if given.Some? ==> AllFound(l.changes, b.room, given.value) {
      ReportIsAboutCollisions(l, b, given);
    }
  }

  /**
   * The caller may choose what to compare with: a handoff blocked by a collision
   * can be marked ready again and is then accepted against an empty list.
   */
  lemma BlockedUntilComparedWithNothing(l: Ledger, id: Id)
    requires BarriersSound(l) && id in l.barriers && l.barriers[id].status.Blocked?
    ensures var b, again := l.barriers[id], MarkReady(l, id, l.barriers[id].source);
            BarriersSound(again) && Accept(again, id, b.target, Some([])).barriers[id].status.Accepted?
  {
    hide Comparisons, Compare, ShownSafe;
    var b, again := l.barriers[id], MarkReady(l, id, l.barriers[id].source);
    assert Sound(l, b);
    PerformKeepsSound(l, DoMarkReady(id, b.source));
    assert AllFound(l.changes, b.room, []);
    AcceptedExactlyWhen(again, id, b.target, Some([]));
    assert Unique([]) == [];
    NothingToCompareWith(again, b.room, Unique(b.required));
  }

  lemma NothingToCompareWith(l: Ledger, room: Id, candidates: seq<Id>)
    requires WellFormed(l)
    ensures Comparisons(l, room, candidates, Some([])) == []
  {
  }

  /**
   * An accepted handoff is final. Whatever happens afterwards, the barrier and its
   * evidence stay, the evidence stays true, the source lease stays ended, and no
   * write is let through under it.
   */
  lemma {:induction false} AcceptedForever(l: Ledger, actions: seq<Action>, id: Id, w: WriteRequest, now: Time)
    requires BarriersSound(l) && Inv(l.leases) && id in l.barriers && l.barriers[id].status.Accepted?
    ensures var after := Replay(l, actions);
            && id in after.barriers && after.barriers[id] == l.barriers[id]
            && Sound(after, l.barriers[id])
            && !Admits(after.leases, w, now, l.barriers[id].lease)
    decreases actions
  {
    hide Sound;
    if actions == [] {
      assert Sound(l, l.barriers[id]);
      NoWriteUnderEndedLease(l, l.barriers[id], w, now);
    } else {
      var next := Perform(l, actions[0]);
      PerformKeepsSound(l, actions[0]);
      AcceptedStays(l, actions[0], id);
      PerformKeepsInv(l, actions[0]);
      AcceptedForever(next, actions[1..], id, w, now);
    }
  }

  lemma NoWriteUnderEndedLease(l: Ledger, b: Barrier, w: WriteRequest, now: Time)
    requires Inv(l.leases) && Sound(l, b) && b.status.Accepted?
    ensures !Admits(l.leases, w, now, b.lease)
  {
    hide Admits, ShownSafe;
    WriteAdmittedExactly(l.leases, w, now, b.lease);
  }

  lemma AcceptedStays(l: Ledger, a: Action, id: Id)
    requires WellFormed(l) && id in l.barriers && l.barriers[id].status.Accepted?
    ensures id in Perform(l, a).barriers && Perform(l, a).barriers[id] == l.barriers[id]
  {
    hide MarkReadyError, Compare;
  }

  lemma PerformKeepsInv(l: Ledger, a: Action)
    requires WellFormed(l) && Inv(l.leases)
    ensures Inv(Perform(l, a).leases)
  {
    hide Inv, Compare;
    if a.OnLeases? {
      StepKeepsInv(l.leases, a.event);
    }
  }
}
