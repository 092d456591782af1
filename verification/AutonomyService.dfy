/**
 * The approval service over its tables. Each method is one request; the clock
 * reading, the rows of other services and the ids of new rows are given.
 */
module AutonomyService {
  import opened Common
  import opened Autonomy
  import opened AutonomyLaws
  import opened AutonomyTheorems

  /** What a pause or kill reports: how many permits it revoked and how many loops it stopped. */
  datatype Evidence = Evidence(revoked: nat, stopped: nat)

  class Approvals {
    var rooms: map<Id, Id>
    var policies: map<Id, Policy>
    var commands: map<Id, Command>
    var approvals: map<Id, Approval>
    var votes: Votes
    var permits: map<Id, Permit>
    var receipts: map<Id, Receipt>
    var controls: map<Scope, Control>
    var loops: map<Id, Loop>
    var inFlight: set<Ticket>

    function Contents(): Db
      reads this
    {
      Db(rooms, policies, commands, approvals, votes, permits, receipts, controls, loops, inFlight)
    }

    ghost predicate Valid()
      reads this
    {
      Inv(Contents())
    }

    constructor (rooms: map<Id, Id>)
      ensures Valid() && Contents() == Db(rooms, map[], map[], map[], map[], map[], map[], map[], map[], {})
    {
      this.rooms := rooms;
      policies, commands, approvals, votes, permits := map[], map[], map[], map[], map[];
      receipts, controls, loops, inFlight := map[], map[], map[], {};
      new;
      EmptyIsInOrder(Contents());
    }

    /* ---- Controls ---- */

    /** Looks at the four controls in turn and stops at the first that kills. */
    method ControlSnapshot(owner: Id, room: Id, policy: Id, now: Time, emergencyStop: bool)
      returns (effective: ControlState, generations: seq<nat>)
      ensures effective == if emergencyStop then Killed else Effective(Contents(), owner, room, policy, now)
      ensures !effective.Killed? ==> generations == Generations(Contents(), owner, room, policy)
    {
      if emergencyStop {
        return Killed, [1];
      }
      var scopes := Scopes(owner, room, policy);
      effective, generations := Enabled, [];
      for i := 0 to |scopes|
        invariant |generations| == i && !effective.Killed?
        invariant forall k :: 0 <= k < i ==> generations[k] == GenerationOf(controls, scopes[k])
        invariant forall k :: 0 <= k < i ==> !StateAt(Contents(), scopes[k], now).Killed?
        invariant effective.Paused? <==> exists k :: 0 <= k < i && StateAt(Contents(), scopes[k], now).Paused?
      {
        var state := StateAt(Contents(), scopes[i], now);
        generations := generations + [GenerationOf(controls, scopes[i])];
        if state.Killed? {
          assert scopes[i] in scopes;
          return Killed, generations;
        }
        if state.Paused? && effective.Enabled? {
          effective := Paused;
        }
      }
      assert generations == Generations(Contents(), owner, room, policy);
    }

    method RevokePermitsOf(owner: Option<Id>, room: Option<Id>, policy: Option<Id>) returns (changed: nat)
      modifies this`permits
      ensures Contents() == RevokePermits(old(Contents()), owner, room, policy)
      ensures changed == |RevocableIds(old(Contents()), owner, room, policy)|
    {
      hide Revocable, PermitsSwept, RevocableBut, RevocableIds, RevokePermits;
      var db, rows := Contents(), permits;
      changed := 0;
      var pending := rows.Keys;
      PermitSweepStarts(db, owner, room, policy);
      while pending != {}
        invariant PermitsSwept(db, rows, pending, owner, room, policy)
        invariant changed == |RevocableBut(db, pending, owner, room, policy)|
      {
        var p :| p in pending;
        PermitSweepStep(db, rows, pending, p, owner, room, policy);
        pending := pending - {p};
        if Revocable(db, rows[p], owner, room, policy) {
          rows := rows[p := rows[p].(status := Revoked)];
          changed := changed + 1;
        }
      }
      PermitSweepEnds(db, rows, owner, room, policy);
      permits := rows;
    }

    method StopLoopsOf(state: ControlState, owner: Option<Id>, room: Option<Id>, policy: Option<Id>)
      returns (changed: nat)
      modifies this`loops
      ensures Contents() == StopLoops(old(Contents()), state, owner, room, policy)
      ensures changed == |StoppableIds(old(Contents()), owner, room, policy)|
    {
      hide Stoppable, StopLoop, LoopsSwept, StoppableBut, StoppableIds, StopLoops;
      var db, rows := Contents(), loops;
      changed := 0;
      var pending := rows.Keys;
      LoopSweepStarts(db, state, owner, room, policy);
      while pending != {}
        invariant LoopsSwept(db, rows, pending, state, owner, room, policy)
        invariant changed == |StoppableBut(db, pending, owner, room, policy)|
      {
        var l :| l in pending;
        LoopSweepStep(db, rows, pending, l, state, owner, room, policy);
        pending := pending - {l};
        if Stoppable(rows[l], owner, room, policy) {
          rows := rows[l := StopLoop(rows[l], state)];
          changed := changed + 1;
        }
      }
      LoopSweepEnds(db, rows, state, owner, room, policy);
      loops := rows;
    }

    method StopOwner(state: ControlState, owner: Option<Id>, room: Option<Id>, policy: Option<Id>)
      returns (evidence: Evidence)
      modifies this`permits, this`loops
      ensures Contents() == StopLoops(RevokePermits(old(Contents()), owner, room, policy), state, owner, room, policy)
      ensures evidence == EvidenceOf(old(Contents()), owner, room, policy)
    {
      hide Revocable, Stoppable, StopLoop;
      var revoked := RevokePermitsOf(owner, room, policy);
      var stopped := StopLoopsOf(state, owner, room, policy);
      evidence := Evidence(revoked, stopped);
    }

    /** A pause or kill for everyone works owner by owner. */
    method StopEveryone(state: ControlState) returns (evidence: Evidence)
      modifies this`permits, this`loops
      ensures Contents() == StopLoops(RevokePermits(old(Contents()), None, None, None), state, None, None, None)
      ensures evidence == EvidenceOf(old(Contents()), None, None, None)
    {
      hide PartlyStopped, CountsBut, RevokePermits, StopLoops, EvidenceOf;
      ghost var before := Contents();
      var owners := (set p | p in permits :: permits[p].owner) + (set l | l in loops :: loops[l].owner);
      evidence := Evidence(0, 0);
      NothingStopped(before, state, owners);
      while owners != {}
        invariant PartlyStopped(before, Contents(), owners, state)
        invariant evidence == CountsBut(before, owners)
      {
        var owner :| owner in owners;
        ghost var now := Contents();
        var more := StopOwner(state, Some(owner), None, None);
        OwnerStopped(before, now, owner, owners, state);
        evidence := Evidence(evidence.revoked + more.revoked, evidence.stopped + more.stopped);
        owners := owners - {owner};
      }
      EveryoneStopped(before, Contents(), state);
    }

    method StopUnder(scope: Scope, state: ControlState, owner: Option<Id>, room: Option<Id>, policy: Option<Id>)
      returns (evidence: Evidence)
      requires (owner, room, policy) == (None, None, None) || !scope.Global?
      modifies this`permits, this`loops
      ensures Contents() == StopLoops(RevokePermits(old(Contents()), owner, room, policy), state, owner, room, policy)
      ensures evidence == EvidenceOf(old(Contents()), owner, room, policy)
    {
      hide StopLoops, RevokePermits, EvidenceOf;
      if scope.Global? {
        evidence := StopEveryone(state);
      } else {
        evidence := StopOwner(state, owner, room, policy);
      }
    }

    method CheckControl(scope: Scope, byAdmin: bool) returns (error: Option<Error>)
      ensures error == SetControlError(Contents(), scope, byAdmin)
    {
      if !byAdmin {
        return Some(NotAdmin);
      }
      match scope {
        case InRoom(owner, room) =>
          if !(room in rooms && rooms[room] == owner) {
            return Some(NotFound);
          }
        case UnderPolicy(owner, policy) =>
          if !(policy in policies && policies[policy].owner == owner) {
            return Some(NotFound);
          }
        case _ =>
      }
      error := None;
    }

    /** Writes a control and, for a pause or kill, stops what is under it. */
    method ChangeControl(scope: Scope, byAdmin: bool, state: ControlState, until: Option<Time>)
      returns (r: Result<Evidence, Error>)
      requires Valid()
      modifies this`controls, this`permits, this`loops
      ensures Valid() && Contents() == SetControl(old(Contents()), scope, byAdmin, state, until)
      ensures var error := SetControlError(old(Contents()), scope, byAdmin);
              if error.Some? then r == Failure(error.value)
              else if state.Enabled? then r == Success(Evidence(0, 0))
              else var (owner, room, policy) := Reach(old(Contents()), scope);
                   r == Success(EvidenceOf(old(Contents()), owner, room, policy))
    {
      hide Inv, StopLoops, RevokePermits, EvidenceOf, SetControlError;
      ghost var before := Contents();
      var refused := CheckControl(scope, byAdmin);
      if refused.Some? {
        return Failure(refused.value);
      }
      var (owner, room, policy) := Reach(Contents(), scope);
      controls := controls[scope := Control(state, GenerationOf(controls, scope) + 1, until)];
      var evidence := Evidence(0, 0);
      if !state.Enabled? {
        EvidenceIgnoresControls(before, controls, owner, room, policy);
        evidence := StopUnder(scope, state, owner, room, policy);
      }
      ControlKeepsInv(before, scope, byAdmin, state, until);
      r := Success(evidence);
    }

    method ChangePolicy(owner: Id, id: Id, expectedVersion: int, change: PolicyChange) returns (r: Result<nat, Error>)
      requires Valid()
      modifies this`policies, this`permits
      ensures Valid() && Contents() == UpdatePolicy(old(Contents()), owner, id, expectedVersion, change)
      ensures var error := UpdatePolicyError(old(Contents()), owner, id, expectedVersion, change);
              if error.Some? then r == Failure(error.value)
              else id in policies && r == Success(policies[id].generation)
    {
      hide Inv, RevokePermits;
      ghost var before := Contents();
      if !(id in policies && policies[id].owner == owner) {
        return Failure(NotFound);
      }
      if policies[id].version != expectedVersion {
        return Failure(VersionConflict);
      }
      if change.classes == Some({}) {
        return Failure(NoClasses);
      }
      policies := policies[id := ChangedPolicy(policies[id], change)];
      assert RevokePermits(Contents(), Some(owner), None, Some(id)).policies == policies by {
        RevokeLeavesPolicies(Contents(), owner, id);
      }
      var _ := RevokePermitsOf(Some(owner), None, Some(id));
      StepKeepsInv(before, Plain(DoUpdatePolicy(owner, id, expectedVersion, change)));
      r := Success(policies[id].generation);
    }

    /* ---- Requests and votes ---- */

    /** The policy is active and nothing is paused or killed; what is found of the controls is handed back. */
    method CheckRun(w: World, owner: Id, room: Id, policy: Id, now: Time)
      returns (error: Option<Error>, generations: seq<nat>)
      requires policy in policies
      ensures error == RunError(Contents(), w, owner, room, policy, now)
      ensures error.None? ==> generations == Generations(Contents(), owner, room, policy)
    {
      hide StateAt, Generations, Scopes;
      if !policies[policy].status.PolicyActive? {
        return Some(PolicyNotActive), [];
      }
      var effective, found := ControlSnapshot(owner, room, policy, now, w.emergencyStop);
      generations := found;
      error := if effective.Enabled? then None else Some(AutonomyStopped);
    }

    method CheckAsk(w: World, q: ApprovalRequest, now: Time) returns (error: Option<Error>)
      ensures error == AskError(Contents(), w, q, now)
    {
      hide RunError, Executable, IsTerminal;
      if !(q.policy in policies && policies[q.policy].owner == q.owner) {
        return Some(NotFound);
      }
      var p := policies[q.policy];
      var stopped, _ := CheckRun(w, q.owner, p.room, q.policy, now);
      if stopped.Some? {
        return stopped;
      }
      if !(q.command in commands && commands[q.command].owner == q.owner) {
        return Some(NotFound);
      }
      if !(q.executor in w.agents && w.agents[q.executor].owner == q.owner) {
        return Some(NotFound);
      }
      var c := commands[q.command];
      if c.envelope.room != p.room || w.agents[q.executor].room != Some(p.room) {
        return Some(RoomMismatch);
      }
      if c.envelope.target != q.executor {
        return Some(NotTarget);
      }
      if IsTerminal(c.status) {
        return Some(TerminalCommand);
      }
      if q.class_ !in p.classes {
        return Some(ClassNotAllowed);
      }
      error := if Executable(p, c.envelope.kind) then None else Some(NotExecutable);
    }

    method RequestApproval(w: World, q: ApprovalRequest, newId: Id, now: Time) returns (r: Result<Approval, Error>)
      requires Valid()
      modifies this`approvals, this`commands
      ensures Valid() && Contents() == CreateApproval(old(Contents()), w, q, newId, now)
      ensures var error := CreateApprovalError(old(Contents()), w, q, newId, now);
              if error.Some? then r == Failure(error.value)
              else r.Success? && r.value in approvals.Values
                   && (if KnownKey(old(Contents()), q.owner, q.key) then
                       r.value.key == q.key && r.value.owner == q.owner
                       else newId !in old(approvals) && r.value == approvals[newId])
    {
      hide Inv, AskError;
      ghost var before := Contents();
      var refused := CheckAsk(w, q, now);
      if refused.Some? {
        return Failure(refused.value);
      }
      if KnownKey(Contents(), q.owner, q.key) {
        var known :| known in approvals && approvals[known].owner == q.owner && approvals[known].key == q.key;
        return Success(approvals[known]);
      }
      if !(30 <= q.ttl <= 86400) {
        return Failure(BadTtl);
      }
      if newId in approvals {
        return Failure(IdTaken);
      }
      AskTouches(before, w, q, newId, now);
      var added := NewApproval(Contents(), q, now);
      approvals := approvals[newId := added];
      if added.status.Approved? {
        commands := commands[q.command := commands[q.command].(approvedBy := Some(newId))];
      }
      StepKeepsInv(before, AutonomyLaws.Event(DoAsk(q, newId), w, now));
      r := Success(added);
    }

    /** Goes through the votes on a request once. */
    method Tally(request: Id) returns (rejected: bool, approved: nat, adminApproved: bool)
      ensures rejected == HasReject(votes, request)
      ensures approved == |Approvers(votes, request)|
      ensures adminApproved == HasAdminApproval(votes, request)
    {
      rejected, approved, adminApproved := false, 0, false;
      ghost var approvers: set<Id> := {};
      var pending := set k | k in votes && k.0 == request;
      while pending != {}
        invariant pending <= votes.Keys && forall k :: k in pending ==> k.0 == request
        invariant rejected <==> exists k :: k in votes && k.0 == request && k !in pending && !votes[k].approves
        invariant adminApproved <==>
                  exists k :: k in votes && k.0 == request && k !in pending && votes[k].approves && votes[k].byAdmin
        invariant forall v ::
                  v in approvers <==> (request, v) in votes && (request, v) !in pending && votes[(request, v)].approves
        invariant approved == |approvers|
      {
        var k :| k in pending;
        assert k == (request, k.1);
        pending := pending - {k};
        if votes[k].approves {
          approved := approved + 1;
          approvers := approvers + {k.1};
          adminApproved := adminApproved || votes[k].byAdmin;
        } else {
          rejected := true;
        }
      }
      assert approvers == Approvers(votes, request) by {
        forall v ensures v in approvers <==> v in Approvers(votes, request) {
          if v in approvers {
            assert (request, v) in votes && (request, v).0 == request;
          }
        }
      }
    }

    /** The first rejection ends a request, the quorum approves it. */
    method DecideOn(request: Id)
      requires request in approvals
      modifies this`approvals, this`commands
      ensures Contents() == Decide(old(Contents()), request)
    {
      hide HasReject, Approvers, HasAdminApproval;
      var a := approvals[request];
      var rejected, approved, adminApproved := Tally(request);
      if rejected {
        approvals := approvals[request := a.(status := TurnedDown)];
      } else if approved >= a.rule.quorum && (!a.rule.requireAdmin || adminApproved) {
        approvals := approvals[request := a.(status := Approved)];
        if a.command in commands {
          commands := commands[a.command := commands[a.command].(approvedBy := Some(request))];
        }
      }
    }

    method CastVoteOn(w: World, request: Id, u: User, approves: bool, now: Time) returns (r: Result<Approval, Error>)
      requires Valid()
      modifies this`votes, this`approvals, this`commands
      ensures Valid() && Contents() == CastVote(old(Contents()), w, request, u, approves, now)
      ensures var error := VoteError(old(Contents()), w, request, u, approves, now);
              if error.Some? then r == Failure(error.value)
              else request in approvals && r == Success(approvals[request])
    {
      hide Inv, CanVote, Decide;
      ghost var before := Contents();
      if request !in approvals {
        return Failure(NotFound);
      }
      var a := approvals[request];
      if !CanVote(w, request, a, u) {
        return Failure(OutsideScope);
      }
      if !(a.status.Open? && now < a.expiresAt) {
        return Failure(RequestNotPending);
      }
      if a.rule.disallowProposer && u.subject == a.createdBy {
        return Failure(ProposerMayNotVote);
      }
      if (request, u.subject) in votes {
        return if votes[(request, u.subject)].approves == approves then Success(a) else Failure(VotedOtherwise);
      }
      votes := votes[(request, u.subject) := Vote(approves, u.isAdmin)];
      DecideOn(request);
      VoteKeepsInv(before, w, request, u, approves, now);
      assert request in approvals by { DecideKeepsRequest(AddVote(before, request, u, approves), request); }
      r := Success(approvals[request]);
    }

    /* ---- Permits ---- */

    method FindPermit(request: Id) returns (found: Option<Id>)
      requires Valid()
      ensures found.Some? <==> HasPermit(Contents(), request)
      ensures found.Some? ==> found.value in permits && permits[found.value].request == request
      ensures found.Some? ==> forall p :: p in permits && permits[p].request == request ==> p == found.value
    {
      hide ApprovalsOk, ReceiptsOk, CommandsOk, PermitOk;
      assert forall p, q :: p in permits && q in permits && permits[p].request == permits[q].request ==> p == q;
      var pending := permits.Keys;
      while pending != {}
        invariant pending <= permits.Keys
        invariant forall p :: p in permits && p !in pending ==> permits[p].request != request
      {
        var p :| p in pending;
        if permits[p].request == request {
          return Some(p);
        }
        pending := pending - {p};
      }
      found := None;
    }

    /** The request still stands for the same policy, command and executor. */
    method CheckIntegrity(request: Id) returns (error: Option<Error>)
      requires request in approvals
      ensures error == IntegrityError(Contents(), request)
    {
      var a := approvals[request];
      if !(a.policy in policies && policies[a.policy].owner == a.owner) {
        return Some(NotFound);
      }
      if policies[a.policy].generation != a.policyGeneration || !policies[a.policy].status.PolicyActive? {
        return Some(StalePolicy);
      }
      if !(a.command in commands && commands[a.command].owner == a.owner) {
        return Some(NotFound);
      }
      if commands[a.command].envelope != a.payload {
        return Some(PayloadChanged);
      }
      error := if commands[a.command].envelope.target != a.executor then Some(ExecutorChanged) else None;
    }

    method GrantPermit(w: World, owner: Id, request: Id, ttl: int, newId: Id, now: Time)
      returns (r: Result<Permit, Error>)
      requires Valid()
      modifies this`permits
      ensures Valid() && Contents() == IssuePermit(old(Contents()), w, owner, request, ttl, newId, now)
      ensures var error := IssueError(old(Contents()), w, owner, request, ttl, newId, now);
              if error.Some? then r == Failure(error.value)
              else r.Success? && r.value in permits.Values && r.value.request == request && PermitRuns(r.value, now)
    {
      hide Inv, IntegrityError, RunError, Generations;
      ghost var before := Contents();
      if !(request in approvals && approvals[request].owner == owner) {
        return Failure(NotFound);
      }
      var a := approvals[request];
      if !a.status.Approved? {
        return Failure(NotApproved);
      }
      var changed := CheckIntegrity(request);
      if changed.Some? {
        return Failure(changed.value);
      }
      PolicyExists(Contents(), request);
      var stopped, generations := CheckRun(w, owner, a.room, a.policy, now);
      if stopped.Some? {
        return Failure(stopped.value);
      }
      var existing := FindPermit(request);
      if existing.Some? {
        var p := permits[existing.value];
        if PermitRuns(p, now) {
          assert permits[existing.value] in permits.Values;
          return Success(p);
        }
        return Failure(PermitEnded);
      }
      if !(30 <= ttl <= 3600) {
        return Failure(BadTtl);
      }
      var until := Min(a.expiresAt, now + ttl);
      if until <= now {
        return Failure(RequestExpired);
      }
      if newId in permits {
        return Failure(IdTaken);
      }
      var added := Permit(a.owner, request, a.policy, a.command, a.executor, Issued, policies[a.policy].generation,
                          generations, 1, 0, false, until);
      permits := permits[newId := added];
      StepKeepsInv(before, AutonomyLaws.Event(DoIssue(owner, request, ttl, newId), w, now));
      assert permits[newId] in permits.Values;
      r := Success(added);
    }

    method IsClaimedBy(owner: Id, permit: Id, executor: Id, now: Time) returns (yes: bool)
      ensures yes == AlreadyClaimed(Contents(), owner, permit, executor, now)
    {
      if permit !in permits {
        return false;
      }
      var p := permits[permit];
      yes := p.owner == owner && p.executor == executor && p.status.Claimed? && now < p.expiresAt;
    }

    method CheckClaim(w: World, owner: Id, permit: Id, executor: Id, now: Time) returns (error: Option<Error>)
      ensures error == ClaimError(Contents(), w, owner, permit, executor, now)
    {
      hide RunError, IntegrityError, Generations;
      if !(permit in permits && permits[permit].owner == owner) {
        return Some(NotFound);
      }
      var p := permits[permit];
      if !(p.status.Issued? && now < p.expiresAt) {
        return Some(PermitNotActive);
      }
      if p.executor != executor {
        return Some(WrongExecutor);
      }
      if p.request !in approvals {
        return Some(NotFound);
      }
      var a := approvals[p.request];
      var changed := CheckIntegrity(p.request);
      if changed.Some? {
        return changed;
      }
      if !(p.policy in policies && policies[p.policy].owner == owner) {
        return Some(NotFound);
      }
      var stopped, generations := CheckRun(w, owner, a.room, p.policy, now);
      if stopped.Some? {
        return stopped;
      }
      if policies[p.policy].generation != p.policyGeneration {
        return Some(StalePolicy);
      }
      if generations != p.generations {
        return Some(StaleControl);
      }
      IntactMeansCommand(Contents(), p.request);
      error := if commands[a.command].status.Accepted? then None else Some(CommandNotAccepted);
    }

    /** The checks of a claim. A permit already claimed by this agent is handed back at once. */
    method BeginClaim(w: World, owner: Id, permit: Id, executor: Id, now: Time)
      returns (r: Result<Option<Ticket>, Error>)
      requires Valid()
      modifies this`inFlight
      ensures Valid()
      ensures AlreadyClaimed(old(Contents()), owner, permit, executor, now) ==>
              Contents() == old(Contents()) && r == Success(None)
      ensures !AlreadyClaimed(old(Contents()), owner, permit, executor, now) ==>
                var error := ClaimError(old(Contents()), w, owner, permit, executor, now);
                && Contents() == ClaimRead(old(Contents()), w, owner, permit, executor, now)
                && (if error.Some? then r == Failure(error.value)
                    else permit in permits && r == Success(Some(Ticket(permit, executor, permits[permit].token))))
    {
      hide Inv, ClaimError, AlreadyClaimed;
      ghost var before := Contents();
      var mine := IsClaimedBy(owner, permit, executor, now);
      if mine {
        return Success(None);
      }
      var refused := CheckClaim(w, owner, permit, executor, now);
      if refused.Some? {
        return Failure(refused.value);
      }
      assert permit in permits by { ClaimIsOnPermit(before, w, owner, permit, executor, now); }
      var ticket := Ticket(permit, executor, permits[permit].token);
      inFlight := inFlight + {ticket};
      InFlightKeepsInv(before, inFlight);
      r := Success(Some(ticket));
    }

    /** The compare-and-set of a claim. */
    method FinishClaim(ticket: Ticket) returns (r: Result<Permit, Error>)
      requires Valid() && ticket in inFlight
      modifies this`permits, this`inFlight
      ensures Valid() && Contents() == ClaimWrite(old(Contents()), ticket)
      ensures if Claimable(old(Contents()), ticket) then
              ticket.permit in permits && r == Success(permits[ticket.permit])
              else r == Failure(ClaimConflict)
    {
      hide Inv;
      ghost var before := Contents();
      inFlight := inFlight - {ticket};
      StepKeepsInv(before, Plain(DoClaimWrite(ticket)));
      if ticket.permit in permits && permits[ticket.permit].status.Issued?
        && permits[ticket.permit].token == ticket.token {
        var p := permits[ticket.permit];
        permits := permits[ticket.permit := p.(status := Claimed, useCount := p.useCount + 1, wasClaimed := true)];
        return Success(permits[ticket.permit]);
      }
      r := Failure(ClaimConflict);
    }

    method CheckReceiptRequest(q: ReceiptRequest, newId: Id) returns (error: Option<Error>)
      ensures error == ReceiptError(Contents(), q, newId)
    {
      if !(q.permit in permits && permits[q.permit].owner == q.owner) {
        return Some(NotFound);
      }
      var p := permits[q.permit];
      if p.executor != q.executor {
        return Some(WrongExecutor);
      }
      if p.token != q.token {
        return Some(StaleToken);
      }
      if !(p.status.Claimed? || p.status.Revoked?) || !p.wasClaimed {
        return Some(NotClaimed);
      }
      error := if newId in receipts then Some(IdTaken) else None;
    }

    method WriteReceipt(q: ReceiptRequest, newId: Id) returns (r: Result<Receipt, Error>)
      requires Valid()
      modifies this`receipts, this`permits
      ensures Valid() && Contents() == RecordReceipt(old(Contents()), q, newId)
      ensures if KnownReceiptKey(old(Contents()), q.owner, q.key) then
              r.Success? && r.value in receipts.Values && r.value.key == q.key
              else if ReceiptError(old(Contents()), q, newId).Some? then
                r == Failure(ReceiptError(old(Contents()), q, newId).value)
              else newId in receipts && r == Success(receipts[newId])
    {
      hide Inv, ReceiptError;
      ghost var before := Contents();
      if KnownReceiptKey(Contents(), q.owner, q.key) {
        var known :| known in receipts && receipts[known].owner == q.owner && receipts[known].key == q.key;
        return Success(receipts[known]);
      }
      var refused := CheckReceiptRequest(q, newId);
      if refused.Some? {
        return Failure(refused.value);
      }
      ReceiptIsForPermit(before, q, newId);
      var p := permits[q.permit];
      StepKeepsInv(before, Plain(DoReceipt(q, newId)));
      var added := Receipt(q.owner, q.permit, p.request, p.command, p.executor, q.outcome, q.key);
      receipts := receipts[newId := added];
      permits := permits[q.permit := p.(status := Consumed)];
      r := Success(added);
    }

    /* ---- Commands ---- */

    method SetStatus(command: Id, status: CommandStatus)
      requires Valid() && command in commands && !IsTerminal(commands[command].status)
      requires CommandOk(WithStatus(Contents(), command, status), command)
      modifies this`commands
      ensures Valid() && Contents() == WithStatus(old(Contents()), command, status)
    {
      hide InOrder, CommandOk, LoopsLinked;
      WithStatusKeepsOrder(Contents(), command, status);
      commands := commands[command := commands[command].(status := status)];
    }

    method Accept(owner: Id, agent: Id, command: Id) returns (r: Result<Command, Error>)
      requires Valid()
      modifies this`commands
      ensures Valid() && Contents() == AcceptCommand(old(Contents()), owner, agent, command)
      ensures var error := AcceptError(old(Contents()), owner, agent, command);
              if error.Some? then r == Failure(error.value) else command in commands && r == Success(commands[command])
    {
      hide InOrder, LoopsLinked, CommandOk;
      ghost var before := Contents();
      if !(command in commands && commands[command].owner == owner && commands[command].envelope.target == agent) {
        return Failure(NotFound);
      }
      var c := commands[command];
      if !(c.status.Pending? || c.status.Delivered? || c.status.Acknowledged?) {
        return Failure(WrongStatus);
      }
      if c.requiresApproval && c.approvedBy.None? {
        return Failure(ApprovalMissing);
      }
      AcceptedCommandOk(before, owner, agent, command);
      SetStatus(command, Accepted);
      r := Success(commands[command]);
    }

    /** Looks for the receipts of the command's target one by one. */
    method FindReceipts(owner: Id, command: Id, agent: Id) returns (found: set<Id>)
      ensures found == ReceiptsFor(Contents(), owner, command, agent)
    {
      found := {};
      var pending := receipts.Keys;
      while pending != {}
        invariant pending <= receipts.Keys
        invariant forall r :: r in found <==>
          r in receipts && r !in pending && receipts[r].owner == owner && receipts[r].command == command
            && receipts[r].executor == agent
      {
        var r :| r in pending;
        pending := pending - {r};
        if receipts[r].owner == owner && receipts[r].command == command && receipts[r].executor == agent {
          found := found + {r};
        }
      }
    }

    /** A privileged command ends as its one receipt says. */
    method CheckReceipt(owner: Id, command: Id, agent: Id, completed: bool) returns (error: Option<Error>)
      ensures error == ReceiptsError(Contents(), owner, command, agent, completed)
    {
      hide ReceiptsFor;
      var found := FindReceipts(owner, command, agent);
      if found == {} {
        return Some(ReceiptMissing);
      }
      var receipt :| receipt in found;
      FoundIsReceipt(Contents(), owner, command, agent, receipt);
      if found != {receipt} {
        NotEmpty(found - {receipt});
        return Some(ReceiptsAmbiguous);
      }
      error := if completed != receipts[receipt].outcome.Succeeded? then Some(OutcomeMismatch) else None;
    }

    method CheckCompletion(owner: Id, agent: Id, command: Id, completed: bool) returns (error: Option<Error>)
      ensures error == CompleteError(Contents(), owner, agent, command, completed)
    {
      hide ReceiptsError;
      if !(command in commands && commands[command].owner == owner && commands[command].envelope.target == agent) {
        return Some(NotFound);
      }
      var c := commands[command];
      if !c.status.Accepted? {
        return Some(WrongStatus);
      }
      error := None;
      if c.envelope.kind.RunTool? && c.requiresApproval {
        error := CheckReceipt(owner, command, agent, completed);
      }
    }

    method Complete(owner: Id, agent: Id, command: Id, completed: bool) returns (r: Result<Command, Error>)
      requires Valid()
      modifies this`commands
      ensures Valid() && Contents() == CompleteCommand(old(Contents()), owner, agent, command, completed)
      ensures var error := CompleteError(old(Contents()), owner, agent, command, completed);
              if error.Some? then r == Failure(error.value) else command in commands && r == Success(commands[command])
    {
      hide InOrder, LoopsLinked, CommandOk, CompleteError, IsTerminal;
      var refused := CheckCompletion(owner, agent, command, completed);
      if refused.Some? {
        return Failure(refused.value);
      }
      CompletedCommandOk(Contents(), owner, agent, command, completed);
      SetStatus(command, if completed then Completed else Failed);
      r := Success(commands[command]);
    }
  }

  function RevocableIds(db: Db, owner: Option<Id>, room: Option<Id>, policy: Option<Id>): set<Id> {
    set p | p in db.permits && Revocable(db, db.permits[p], owner, room, policy)
  }

  function StoppableIds(db: Db, owner: Option<Id>, room: Option<Id>, policy: Option<Id>): set<Id> {
    set l | l in db.loops && Stoppable(db.loops[l], owner, room, policy)
  }

  /** The rows not pending are as a revocation leaves them, the others as they were. */
  ghost predicate PermitsSwept(db: Db, rows: map<Id, Permit>, pending: set<Id>, owner: Option<Id>, room: Option<Id>,
                               policy: Option<Id>)
  {
    && rows.Keys == db.permits.Keys && pending <= rows.Keys
    && forall p :: p in rows ==>
         rows[p] ==
           (if p !in pending && Revocable(db, db.permits[p], owner, room, policy) then db.permits[p].(status := Revoked)
                     else db.permits[p])
  }

  function RevocableBut(db: Db, pending: set<Id>, owner: Option<Id>, room: Option<Id>, policy: Option<Id>): set<Id> {
    set p | p in db.permits && p !in pending && Revocable(db, db.permits[p], owner, room, policy)
  }

  lemma PermitSweepStarts(db: Db, owner: Option<Id>, room: Option<Id>, policy: Option<Id>)
    ensures PermitsSwept(db, db.permits, db.permits.Keys, owner, room, policy)
    ensures RevocableBut(db, db.permits.Keys, owner, room, policy) == {}
  {
  }

  lemma PermitCountStep(db: Db, pending: set<Id>, p: Id, owner: Option<Id>, room: Option<Id>, policy: Option<Id>)
    requires p in pending && p in db.permits
    ensures |RevocableBut(db, pending - {p}, owner, room, policy)|
         == |RevocableBut(db, pending, owner, room, policy)|
           + (if Revocable(db, db.permits[p], owner, room, policy) then 1 else 0)
  {
    hide Revocable;
    var had, has :=
      RevocableBut(db, pending, owner, room, policy), RevocableBut(db, pending - {p}, owner, room, policy);
    assert has == if Revocable(db, db.permits[p], owner, room, policy) then had + {p} else had;
  }

  lemma PermitSweepStep(db: Db, rows: map<Id, Permit>, pending: set<Id>, p: Id, owner: Option<Id>, room: Option<Id>,
                        policy: Option<Id>)
    requires PermitsSwept(db, rows, pending, owner, room, policy) && p in pending
    ensures p in rows && rows[p] == db.permits[p]
    ensures var hit := Revocable(db, rows[p], owner, room, policy);
            && PermitsSwept(db, if hit then rows[p := rows[p].(status := Revoked)] else rows, pending - {p},
                            owner, room, policy)
            && |RevocableBut(db, pending - {p}, owner, room, policy)|
               == |RevocableBut(db, pending, owner, room, policy)| + (if hit then 1 else 0)
  {
    hide Revocable, RevocableBut;
    PermitCountStep(db, pending, p, owner, room, policy);
  }

  lemma PermitSweepEnds(db: Db, rows: map<Id, Permit>, owner: Option<Id>, room: Option<Id>, policy: Option<Id>)
    requires PermitsSwept(db, rows, {}, owner, room, policy)
    ensures db.(permits := rows) == RevokePermits(db, owner, room, policy)
    ensures RevocableBut(db, {}, owner, room, policy) == RevocableIds(db, owner, room, policy)
  {
    hide Revocable;
    assert rows == RevokePermits(db, owner, room, policy).permits;
  }

  ghost predicate LoopsSwept(db: Db, rows: map<Id, Loop>, pending: set<Id>, state: ControlState, owner: Option<Id>,
                             room: Option<Id>, policy: Option<Id>)
  {
    && rows.Keys == db.loops.Keys && pending <= rows.Keys
    && forall l :: l in rows ==>
         rows[l] ==
           (if l !in pending && Stoppable(db.loops[l], owner, room, policy) then StopLoop(db.loops[l], state)
            else db.loops[l])
  }

  function StoppableBut(db: Db, pending: set<Id>, owner: Option<Id>, room: Option<Id>, policy: Option<Id>): set<Id> {
    set l | l in db.loops && l !in pending && Stoppable(db.loops[l], owner, room, policy)
  }

  lemma LoopSweepStarts(db: Db, state: ControlState, owner: Option<Id>, room: Option<Id>, policy: Option<Id>)
    ensures LoopsSwept(db, db.loops, db.loops.Keys, state, owner, room, policy)
    ensures StoppableBut(db, db.loops.Keys, owner, room, policy) == {}
  {
  }

  lemma LoopCountStep(db: Db, pending: set<Id>, l: Id, owner: Option<Id>, room: Option<Id>, policy: Option<Id>)
    requires l in pending && l in db.loops
    ensures |StoppableBut(db, pending - {l}, owner, room, policy)|
         == |StoppableBut(db, pending, owner, room, policy)|
           + (if Stoppable(db.loops[l], owner, room, policy) then 1 else 0)
  {
    hide Stoppable;
    var had, has :=
      StoppableBut(db, pending, owner, room, policy), StoppableBut(db, pending - {l}, owner, room, policy);
    assert has == if Stoppable(db.loops[l], owner, room, policy) then had + {l} else had;
  }

  lemma LoopSweepStep(db: Db, rows: map<Id, Loop>, pending: set<Id>, l: Id, state: ControlState, owner: Option<Id>,
                      room: Option<Id>, policy: Option<Id>)
    requires LoopsSwept(db, rows, pending, state, owner, room, policy) && l in pending
    ensures l in rows && rows[l] == db.loops[l]
    ensures var hit := Stoppable(rows[l], owner, room, policy);
            && LoopsSwept(db, if hit then rows[l := StopLoop(rows[l], state)] else rows, pending - {l},
                          state, owner, room, policy)
            && |StoppableBut(db, pending - {l}, owner, room, policy)|
               == |StoppableBut(db, pending, owner, room, policy)| + (if hit then 1 else 0)
  {
    hide Stoppable, StopLoop, StoppableBut;
    LoopCountStep(db, pending, l, owner, room, policy);
  }

  lemma LoopSweepEnds(db: Db, rows: map<Id, Loop>, state: ControlState, owner: Option<Id>, room: Option<Id>,
                      policy: Option<Id>)
    requires LoopsSwept(db, rows, {}, state, owner, room, policy)
    ensures db.(loops := rows) == StopLoops(db, state, owner, room, policy)
    ensures StoppableBut(db, {}, owner, room, policy) == StoppableIds(db, owner, room, policy)
  {
    hide Stoppable, StopLoop;
    assert rows == StopLoops(db, state, owner, room, policy).loops;
  }

  /** How many rows a stop changes. */
  function EvidenceOf(db: Db, owner: Option<Id>, room: Option<Id>, policy: Option<Id>): Evidence {
    Evidence(|RevocableIds(db, owner, room, policy)|, |StoppableIds(db, owner, room, policy)|)
  }

  /** Everything is stopped but what belongs to the owners still to do. */
  ghost predicate PartlyStopped(before: Db, now: Db, todo: set<Id>, state: ControlState) {
    && now == before.(permits := now.permits, loops := now.loops)
    && now.permits.Keys == before.permits.Keys && now.loops.Keys == before.loops.Keys
    && (forall p :: p in before.permits ==>
          now.permits[p] ==
            (if before.permits[p].owner !in todo && Revocable(before, before.permits[p], None, None, None)
                             then before.permits[p].(status := Revoked) else before.permits[p]))
    && (forall l :: l in before.loops ==>
          now.loops[l] == (if before.loops[l].owner !in todo && Stoppable(before.loops[l], None, None, None)
                           then StopLoop(before.loops[l], state) else before.loops[l]))
  }

  function RevokedBut(before: Db, todo: set<Id>): set<Id> {
    set p | p in before.permits && before.permits[p].owner !in todo
      && Revocable(before, before.permits[p], None, None, None)
  }

  function StoppedBut(before: Db, todo: set<Id>): set<Id> {
    set l | l in before.loops && before.loops[l].owner !in todo && Stoppable(before.loops[l], None, None, None)
  }

  function CountsBut(before: Db, todo: set<Id>): Evidence {
    Evidence(|RevokedBut(before, todo)|, |StoppedBut(before, todo)|)
  }

  lemma NothingStopped(db: Db, state: ControlState, owners: set<Id>)
    requires forall p :: p in db.permits ==> db.permits[p].owner in owners
    requires forall l :: l in db.loops ==> db.loops[l].owner in owners
    ensures PartlyStopped(db, db, owners, state) && CountsBut(db, owners) == Evidence(0, 0)
  {
    assert RevokedBut(db, owners) == {} && StoppedBut(db, owners) == {};
  }

  lemma OwnerPermits(before: Db, now: Db, owner: Id, todo: set<Id>, state: ControlState)
    requires PartlyStopped(before, now, todo, state) && owner in todo
    ensures var after := RevokePermits(now, Some(owner), None, None);
            forall p :: p in before.permits ==>
              && p in after.permits
              && after.permits[p] ==
                 (if before.permits[p].owner !in todo - {owner}
                  && Revocable(before, before.permits[p], None, None, None)
               then before.permits[p].(status := Revoked) else before.permits[p])
  {
  }

  lemma OwnerLoops(before: Db, now: Db, owner: Id, todo: set<Id>, state: ControlState)
    requires PartlyStopped(before, now, todo, state) && owner in todo
    ensures var after := StopLoops(now, state, Some(owner), None, None);
            forall l :: l in before.loops ==>
              && l in after.loops
              && after.loops[l] ==
                 (if before.loops[l].owner !in todo - {owner} && Stoppable(before.loops[l], None, None, None)
               then StopLoop(before.loops[l], state) else before.loops[l])
  {
  }

  lemma OwnerStopped(before: Db, now: Db, owner: Id, todo: set<Id>, state: ControlState)
    requires PartlyStopped(before, now, todo, state) && owner in todo
    ensures var after := StopLoops(RevokePermits(now, Some(owner), None, None), state, Some(owner), None, None);
            PartlyStopped(before, after, todo - {owner}, state)
    ensures var more, had := EvidenceOf(now, Some(owner), None, None), CountsBut(before, todo);
            CountsBut(before, todo - {owner}) == Evidence(had.revoked + more.revoked, had.stopped + more.stopped)
  {
    hide EvidenceOf, CountsBut;
    OwnerCounts(before, now, owner, todo, state);
    OwnerPermits(before, now, owner, todo, state);
    OwnerLoops(before, now, owner, todo, state);
    hide Revocable, Stoppable, StopLoop;
  }

  lemma OwnerCounts(before: Db, now: Db, owner: Id, todo: set<Id>, state: ControlState)
    requires PartlyStopped(before, now, todo, state) && owner in todo
    ensures var more, had := EvidenceOf(now, Some(owner), None, None), CountsBut(before, todo);
            CountsBut(before, todo - {owner}) == Evidence(had.revoked + more.revoked, had.stopped + more.stopped)
  {
    hide PartlyStopped, RevocableIds, StoppableIds, RevokedBut, StoppedBut, OwnRevocable, OwnStoppable;
    OwnersRows(before, now, owner, todo, state);
    OwnerAddsRevoked(before, owner, todo);
    OwnerAddsStopped(before, owner, todo);
  }

  function OwnRevocable(db: Db, owner: Id): set<Id> {
    set p | p in db.permits && db.permits[p].owner == owner && Revocable(db, db.permits[p], None, None, None)
  }

  function OwnStoppable(db: Db, owner: Id): set<Id> {
    set l | l in db.loops && db.loops[l].owner == owner && Stoppable(db.loops[l], None, None, None)
  }

  lemma OwnerAddsRevoked(before: Db, owner: Id, todo: set<Id>)
    requires owner in todo
    ensures |RevokedBut(before, todo - {owner})| == |RevokedBut(before, todo)| + |OwnRevocable(before, owner)|
  {
    hide Revocable;
    assert RevokedBut(before, todo - {owner}) == RevokedBut(before, todo) + OwnRevocable(before, owner);
    assert RevokedBut(before, todo) !! OwnRevocable(before, owner);
  }

  lemma OwnerAddsStopped(before: Db, owner: Id, todo: set<Id>)
    requires owner in todo
    ensures |StoppedBut(before, todo - {owner})| == |StoppedBut(before, todo)| + |OwnStoppable(before, owner)|
  {
    hide Stoppable;
    assert StoppedBut(before, todo - {owner}) == StoppedBut(before, todo) + OwnStoppable(before, owner);
    assert StoppedBut(before, todo) !! OwnStoppable(before, owner);
  }

  /** Rows of an owner still to do are as they were. */
  lemma OwnersRows(before: Db, now: Db, owner: Id, todo: set<Id>, state: ControlState)
    requires PartlyStopped(before, now, todo, state) && owner in todo
    ensures RevocableIds(now, Some(owner), None, None) == OwnRevocable(before, owner)
    ensures StoppableIds(now, Some(owner), None, None) == OwnStoppable(before, owner)
  {
    assert forall p :: p in before.permits && before.permits[p].owner == owner ==> now.permits[p] == before.permits[p];
    assert forall l :: l in before.loops && before.loops[l].owner == owner ==> now.loops[l] == before.loops[l];
  }

  lemma EveryoneStopped(before: Db, now: Db, state: ControlState)
    requires PartlyStopped(before, now, {}, state)
    ensures now == StopLoops(RevokePermits(before, None, None, None), state, None, None, None)
    ensures CountsBut(before, {}) == EvidenceOf(before, None, None, None)
  {
    hide Revocable, Stoppable, StopLoop;
    var revoked := RevokePermits(before, None, None, None);
    var stopped := StopLoops(revoked, state, None, None, None);
    assert revoked == before.(permits := revoked.permits) && now.permits == revoked.permits;
    assert stopped == revoked.(loops := stopped.loops) && now.loops == stopped.loops;
    assert RevokedBut(before, {}) == RevocableIds(before, None, None, None);
    assert StoppedBut(before, {}) == StoppableIds(before, None, None, None);
  }

  lemma EvidenceIgnoresControls(db: Db, controls: map<Scope, Control>, owner: Option<Id>, room: Option<Id>,
                                policy: Option<Id>)
    ensures EvidenceOf(db.(controls := controls), owner, room, policy) == EvidenceOf(db, owner, room, policy)
  {
    assert forall p :: p in db.permits ==>
      Revocable(db.(controls := controls), db.permits[p], owner, room, policy) ==
        Revocable(db, db.permits[p], owner, room, policy);
    assert RevocableIds(db.(controls := controls), owner, room, policy) == RevocableIds(db, owner, room, policy);
    assert StoppableIds(db.(controls := controls), owner, room, policy) == StoppableIds(db, owner, room, policy);
  }

  lemma RevokeLeavesPolicies(db: Db, owner: Id, id: Id)
    ensures RevokePermits(db, Some(owner), None, Some(id)).policies == db.policies
  {
  }

  lemma MarkKeepsApprovals(db: Db, request: Id)
    requires request in db.approvals
    ensures MarkCommand(db, request).approvals == db.approvals
  {
  }

  lemma DecideKeepsRequest(db: Db, request: Id)
    requires request in db.approvals
    ensures request in Decide(db, request).approvals
  {
    hide QuorumMet, HasReject, Grows;
    assert MarkCommand(db.(approvals := db.approvals[request := db.approvals[request].(status := Approved)]),
                       request).approvals
        == db.approvals[request := db.approvals[request].(status := Approved)] by {
      MarkKeepsApprovals(db.(approvals := db.approvals[request := db.approvals[request].(status := Approved)]),
                         request);
    }
    hide MarkCommand;
  }

  lemma IntactMeansCommand(db: Db, request: Id)
    requires request in db.approvals && IntegrityError(db, request).None?
    ensures db.approvals[request].command in db.commands
  {
  }

  lemma PolicyExists(db: Db, request: Id)
    requires request in db.approvals && IntegrityError(db, request).None?
    ensures db.approvals[request].policy in db.policies
  {
  }

  lemma ClaimIsOnPermit(db: Db, w: World, owner: Id, permit: Id, executor: Id, now: Time)
    requires ClaimError(db, w, owner, permit, executor, now).None?
    ensures permit in db.permits
  {
  }

  lemma InFlightKeepsInv(db: Db, inFlight: set<Ticket>)
    requires Inv(db)
    ensures Inv(db.(inFlight := inFlight))
  {
    hide InOrder, Grows, UseOk, LoopsLinked;
    GrowsReflexive(db);
    UsesKept(db, db.(inFlight := inFlight)) by {
      GrowsByTables(db, db.(inFlight := inFlight));
    }
  }

  lemma GrowsByTables(x: Db, y: Db)
    requires y == x.(inFlight := y.inFlight)
    ensures Grows(x, y)
  {
    GrowsReflexive(x);
  }

  lemma NotEmpty(s: set<Id>)
    requires s != {}
    ensures |s| >= 1
  {
  }

  lemma FoundIsReceipt(db: Db, owner: Id, command: Id, agent: Id, r: Id)
    requires r in ReceiptsFor(db, owner, command, agent)
    ensures r in db.receipts
  {
  }
}
