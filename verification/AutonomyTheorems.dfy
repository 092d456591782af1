/** Safety of approvals, permits and controls over whole runs. */
module AutonomyTheorems {
  import opened Common
  import opened Autonomy
  import opened AutonomyLaws

  /* ---- Votes ---- */

  predicate VotedFor(db: Db, request: Id, voter: Id) {
    (request, voter) in db.votes && db.votes[(request, voter)].approves
  }

  predicate VotedAgainst(db: Db, request: Id, voter: Id) {
    (request, voter) in db.votes && !db.votes[(request, voter)].approves
  }

  /** As many different people have approved as the rule wants, an administrator among them if it wants one. */
  ghost predicate EnoughVotes(db: Db, request: Id)
    requires request in db.approvals
  {
    var rule := db.approvals[request].rule;
    && (exists voters: set<Id> :: |voters| >= rule.quorum && forall v :: v in voters ==> VotedFor(db, request, v))
    && (rule.requireAdmin ==> exists v :: VotedFor(db, request, v) && db.votes[(request, v)].byAdmin)
  }

  /** The request has enough votes, none against, and not the proposer's if the rule shuts it out. */
  ghost predicate WellApproved(db: Db, request: Id) {
    && request in db.approvals && EnoughVotes(db, request)
    && (forall v :: !VotedAgainst(db, request, v))
    && (db.approvals[request].rule.disallowProposer ==> !VotedFor(db, request, db.approvals[request].createdBy))
  }

  lemma {:induction false} NoLarger(a: set<Id>, b: set<Id>)
    requires a <= b
    ensures |a| <= |b|
  {
    if x :| x in a {
      NoLarger(a - {x}, b - {x});
    }
  }

  lemma QuorumIsEnough(db: Db, request: Id)
    requires request in db.approvals
    ensures QuorumMet(db.votes, request, db.approvals[request].rule) <==> EnoughVotes(db, request)
  {
    var rule, approvers := db.approvals[request].rule, Approvers(db.votes, request);
    forall v: Id ensures v in approvers <==> VotedFor(db, request, v) {
      if VotedFor(db, request, v) {
        assert (request, v) in db.votes && (request, v).0 == request;
      }
    }
    if voters: set<Id> :| |voters| >= rule.quorum && forall v :: v in voters ==> VotedFor(db, request, v) {
      NoLarger(voters, approvers);
    }
    if HasAdminApproval(db.votes, request) {
      var k :| k in db.votes && k.0 == request && db.votes[k].approves && db.votes[k].byAdmin;
      assert VotedFor(db, request, k.1) && k == (request, k.1);
    }
    if v :| VotedFor(db, request, v) && db.votes[(request, v)].byAdmin {
      assert (request, v).0 == request;
    }
  }

  lemma RejectIsAgainst(db: Db, request: Id)
    ensures HasReject(db.votes, request) <==> exists v :: VotedAgainst(db, request, v)
  {
    if HasReject(db.votes, request) {
      var k :| k in db.votes && k.0 == request && !db.votes[k].approves;
      assert VotedAgainst(db, request, k.1) by { assert k == (request, k.1); }
    }
    if v :| VotedAgainst(db, request, v) {
      assert (request, v).0 == request;
    }
  }

  /** Statuses say what the votes say, in every state in which requests are in order. */
  lemma StatusFollowsVotes(db: Db, request: Id)
    requires ApprovalsOk(db) && request in db.approvals
    ensures db.approvals[request].status.TurnedDown? <==> exists v :: VotedAgainst(db, request, v)
    ensures db.approvals[request].status.Approved? ==> WellApproved(db, request)
    ensures db.approvals[request].status.Open? || db.approvals[request].status.Lapsed? ==> !EnoughVotes(db, request)
  {
    hide EnoughVotes, QuorumMet, HasReject;
    assert TallyOk(db.votes, request, db.approvals[request]);
    QuorumIsEnough(db, request);
    RejectIsAgainst(db, request);
  }

  /* ---- From completion back to the votes ---- */

  /** The request's policy, as long as it has not been updated since, allows the action under this very rule. */
  ghost predicate AskedUnderPolicy(db: Db, request: Id) {
    && request in db.approvals
    && var a := db.approvals[request];
       && a.policy in db.policies && db.policies[a.policy].owner == a.owner && db.policies[a.policy].room == a.room
       && (a.policyGeneration == db.policies[a.policy].generation ==> Allows(db.policies[a.policy], a))
  }

  /** The whole chain behind a completed privileged command. */
  ghost predicate Authorised(db: Db, command: Id, receipt: Id) {
    && SucceededReceipt(db, receipt, command)
    && db.receipts[receipt].permit in db.permits
    && var p := db.permits[db.receipts[receipt].permit];
       && p.status.Consumed? && p.useCount == 1 && p.wasClaimed
       && p.command == command && p.executor == db.commands[command].envelope.target
       && WellApproved(db, p.request)
       && db.approvals[p.request].status.Approved? && db.approvals[p.request].payload == db.commands[command].envelope
       && AskedUnderPolicy(db, p.request)
  }

  lemma CompletionIsAuthorised(db: Db, command: Id)
    requires Inv(db) && command in db.commands && IsPrivileged(db.commands[command])
             && db.commands[command].status.Completed?
    ensures exists r :: Authorised(db, command, r)
  {
    hide TallyOk, WellApproved;
    assert CommandOk(db, command);
    var r :| SucceededReceipt(db, r, command);
    assert ReceiptOk(db, db.receipts[r]);
    var p := db.permits[db.receipts[r].permit];
    assert PermitOk(db, p);
    StatusFollowsVotes(db, p.request);
    assert ApprovalLinked(db, db.approvals[p.request]);
    assert Authorised(db, command, r);
  }

  /** After any run from a state in order, no privileged command is completed without its chain of authority. */
  lemma CompletedOnlyWhenAuthorised(db: Db, events: seq<Event>, command: Id)
    requires Inv(db) && command in Run(db, events).commands
    requires IsPrivileged(Run(db, events).commands[command]) && Run(db, events).commands[command].status.Completed?
    ensures exists r :: Authorised(Run(db, events), command, r)
  {
    hide Inv, Run;
    RunKeepsInv(db, events);
    CompletionIsAuthorised(Run(db, events), command);
  }

  lemma EmptyIsInOrder(db: Db)
    requires db.approvals == map[] && db.votes == map[] && db.permits == map[] && db.receipts == map[]
    requires db.commands == map[] && db.loops == map[]
    ensures Inv(db)
  {
  }

  /** One permit per request, one receipt per permit. */
  lemma NoSecondPermitOrReceipt(db: Db)
    requires Inv(db)
    ensures forall p, q ::
            p in db.permits && q in db.permits && db.permits[p].request == db.permits[q].request ==> p == q
    ensures forall r, s ::
            r in db.receipts && s in db.receipts && db.receipts[r].permit == db.receipts[s].permit ==> r == s
  {
    hide ApprovalsOk, CommandsOk;
  }

  /* ---- Claims ---- */

  predicate ClaimHappens(before: Db, after: Db, permit: Id) {
    permit in before.permits && before.permits[permit].status.Issued? && permit in after.permits
      && after.permits[permit].status.Claimed?
  }

  /** How often a permit is claimed in the course of a run. */
  function ClaimsOf(db: Db, events: seq<Event>, permit: Id): nat
    decreases events
  {
    if events == [] then 0
    else
      var now := if ClaimHappens(db, Apply(db, events[0]), permit) then 1 else 0;
      now + ClaimsOf(Apply(db, events[0]), events[1..], permit)
  }

  lemma UsesCount(x: Db, y: Db, permit: Id)
    requires Inv(x) && Inv(y) && Grows(x, y) && permit in x.permits
    requires ClaimHappens(x, y, permit) || y.permits[permit].wasClaimed == x.permits[permit].wasClaimed
    ensures permit in y.permits
    ensures y.permits[permit].useCount == x.permits[permit].useCount + if ClaimHappens(x, y, permit) then 1 else 0
  {
    hide ApprovalsOk, ReceiptsOk, CommandsOk;
    assert PermitOk(x, x.permits[permit]) && PermitOk(y, y.permits[permit]);
  }

  predicate ClaimKept(x: Db, y: Db, permit: Id) {
    permit in x.permits && permit in y.permits && y.permits[permit].wasClaimed == x.permits[permit].wasClaimed
  }

  /** The permit is as it was, and every claim in flight still is. */
  predicate PermitKept(x: Db, y: Db, permit: Id) {
    permit in x.permits && permit in y.permits && y.permits[permit] == x.permits[permit] && x.inFlight <= y.inFlight
  }

  /** The steps that may write a permit that is there. */
  predicate WritesPermits(s: Step) {
    s.DoControl? || s.DoUpdatePolicy? || s.DoOutdate? || s.DoRevoke? || s.DoClaimWrite? || s.DoReceipt?
  }

  lemma OtherStepsKeepPermit(db: Db, e: Event, permit: Id)
    requires permit in db.permits && !WritesPermits(e.step)
    ensures PermitKept(db, Apply(db, e), permit)
  {
    hide CreateApproval, CastVote, LapseApprovals, SetControl, UpdatePolicy, CreatePolicy, IssuePermit, OutdatePermits,
         ClaimRead, ClaimWrite, RecordReceipt, RevokePermits, DeliverCommand, AcknowledgeCommand, AcceptCommand,
         RejectCommand, CancelCommand, CompleteCommand, IssueCommand, ClaimKept, ClaimHappens, PermitKept;
    match e.step
    case DoAsk(q, id) => AskKeepsPermit(db, e.world, q, id, e.now, permit);
    case DoVote(r, u, approves) => VoteKeepsPermit(db, e.world, r, u, approves, e.now, permit);
    case DoLapse => LapseKeepsPermit(db, e.now, permit);
    case DoCreatePolicy(p, id) => CreatePolicyKeepsPermit(db, p, id, permit);
    case DoIssue(owner, r, ttl, id) => IssueKeepsPermit(db, e.world, owner, r, ttl, id, e.now, permit);
    case DoClaimRead(owner, p, executor) => ReadKeepsPermit(db, e.world, owner, p, executor, e.now, permit);
    case DoOnLoops(loops) => LoopsKeepPermit(db, loops, permit);
    case _ => CommandsKeepPermit(db, e, permit);
  }

  /** Only the compare-and-set makes a permit claimed. */
  lemma OnlyClaimWriteClaims(db: Db, e: Event, permit: Id)
    requires permit in db.permits
    ensures ClaimKept(db, Apply(db, e), permit) || (e.step.DoClaimWrite? && ClaimHappens(db, Apply(db, e), permit))
  {
    if !WritesPermits(e.step) {
      hide Apply;
      OtherStepsKeepPermit(db, e, permit);
    } else {
      hide SetControl, UpdatePolicy, OutdatePermits, ClaimWrite, RecordReceipt, RevokePermits, ClaimKept, ClaimHappens;
      match e.step
      case DoControl(scope, byAdmin, state, until) => ControlKeepsClaim(db, scope, byAdmin, state, until, permit);
      case DoUpdatePolicy(owner, id, version, change) => UpdateKeepsClaim(db, owner, id, version, change, permit);
      case DoOutdate => OutdatingKeepsClaim(db, e.now, permit);
      case DoRevoke(owner, room, policy) => RevokingKeepsClaim(db, owner, room, policy, permit);
      case DoClaimWrite(t) => WriteClaimsOne(db, t, permit);
      case DoReceipt(q, id) => ReceiptKeepsClaim(db, q, id, permit);
    }
  }

  lemma CommandsKeepPermit(db: Db, e: Event, permit: Id)
    requires permit in db.permits
    requires e.step.DoIssueCommand? || e.step.DoDeliver? || e.step.DoAcknowledge? || e.step.DoAccept?
             || e.step.DoReject?
             || e.step.DoCancel? || e.step.DoComplete?
    ensures PermitKept(db, Apply(db, e), permit)
  {
    hide Apply;
    CommandStepGrows(db, e);
  }

  lemma LoopsKeepPermit(db: Db, loops: map<Id, Loop>, permit: Id)
    requires permit in db.permits
    ensures PermitKept(db, db, permit) && PermitKept(db, db.(loops := loops), permit)
  {
  }

  lemma AskKeepsPermit(db: Db, w: World, q: ApprovalRequest, id: Id, now: Time, permit: Id)
    requires permit in db.permits
    ensures PermitKept(db, CreateApproval(db, w, q, id, now), permit)
  {
    hide AskError, KnownKey;
  }

  lemma VoteKeepsPermit(db: Db, w: World, request: Id, u: User, approves: bool, now: Time, permit: Id)
    requires permit in db.permits
    ensures PermitKept(db, CastVote(db, w, request, u, approves, now), permit)
  {
    hide CanVote, QuorumMet, HasReject, VoteError, MarkCommand;
    if VoteError(db, w, request, u, approves, now).None? && (request, u.subject) !in db.votes {
      VoteTouches(db, w, request, u, approves, now);
    }
  }

  lemma LapseKeepsPermit(db: Db, now: Time, permit: Id)
    requires permit in db.permits
    ensures PermitKept(db, LapseApprovals(db, now), permit)
  {
  }

  lemma CreatePolicyKeepsPermit(db: Db, p: Policy, id: Id, permit: Id)
    requires permit in db.permits
    ensures PermitKept(db, CreatePolicy(db, p, id), permit)
  {
  }

  lemma ControlKeepsClaim(db: Db, scope: Scope, byAdmin: bool, state: ControlState, until: Option<Time>, permit: Id)
    requires permit in db.permits
    ensures ClaimKept(db, SetControl(db, scope, byAdmin, state, until), permit)
  {
    hide RevokePermits, Reach, SetControlError, StopLoop, Stoppable;
    var (owner, room, policy) := Reach(db, scope);
    RevokingKeepsClaim(WriteControl(db, scope, state, until), owner, room, policy, permit);
  }

  lemma UpdateKeepsClaim(db: Db, owner: Id, id: Id, version: int, change: PolicyChange, permit: Id)
    requires permit in db.permits
    ensures ClaimKept(db, UpdatePolicy(db, owner, id, version, change), permit)
  {
    hide RevokePermits;
    if UpdatePolicyError(db, owner, id, version, change).None? {
      RevokingKeepsClaim(db.(policies := db.policies[id := ChangedPolicy(db.policies[id], change)]), Some(owner), None,
                         Some(id), permit);
    }
  }

  lemma IssueKeepsPermit(db: Db, w: World, owner: Id, request: Id, ttl: int, id: Id, now: Time, permit: Id)
    requires permit in db.permits
    ensures PermitKept(db, IssuePermit(db, w, owner, request, ttl, id, now), permit)
  {
    hide RunError, IntegrityError;
  }

  lemma OutdatingKeepsClaim(db: Db, now: Time, permit: Id)
    requires permit in db.permits
    ensures ClaimKept(db, OutdatePermits(db, now), permit)
  {
  }

  lemma RevokingKeepsClaim(db: Db, owner: Option<Id>, room: Option<Id>, policy: Option<Id>, permit: Id)
    requires permit in db.permits
    ensures ClaimKept(db, RevokePermits(db, owner, room, policy), permit)
  {
    hide Revocable;
  }

  lemma ReadKeepsPermit(db: Db, w: World, owner: Id, p: Id, executor: Id, now: Time, permit: Id)
    requires permit in db.permits
    ensures PermitKept(db, ClaimRead(db, w, owner, p, executor, now), permit)
  {
    hide ClaimError;
  }

  lemma WriteClaimsOne(db: Db, t: Ticket, permit: Id)
    requires permit in db.permits
    ensures ClaimKept(db, ClaimWrite(db, t), permit) || ClaimHappens(db, ClaimWrite(db, t), permit)
  {
    hide Claimable;
    if Claimable(db, t) {
      ClaimableMeans(db, t);
    }
  }

  lemma ReceiptIsForPermit(db: Db, q: ReceiptRequest, id: Id)
    requires ReceiptError(db, q, id).None?
    ensures q.permit in db.permits
  {
  }

  lemma ReceiptKeepsClaim(db: Db, q: ReceiptRequest, id: Id, permit: Id)
    requires permit in db.permits
    ensures ClaimKept(db, RecordReceipt(db, q, id), permit)
  {
    hide KnownReceiptKey, ReceiptError;
    if ReceiptError(db, q, id).None? {
      ReceiptIsForPermit(db, q, id);
    }
  }

  /**
   * However claims interleave between their checks and their compare-and-set, a
   * permit is claimed as often as its use count has risen, which is at most once.
   */
  lemma {:induction false} ClaimedAtMostOnce(db: Db, events: seq<Event>, permit: Id)
    requires Inv(db) && permit in db.permits
    ensures permit in Run(db, events).permits
    ensures Run(db, events).permits[permit].useCount == db.permits[permit].useCount + ClaimsOf(db, events, permit) <= 1
    decreases events
  {
    hide Inv, Apply, ClaimHappens;
    if events == [] {
      UseIsAtMostOne(db, permit);
    } else {
      var next := Apply(db, events[0]);
      StepGrows(db, events[0]);
      StepKeepsInv(db, events[0]);
      PermitRemains(db, next, permit);
      OnlyClaimWriteClaims(db, events[0], permit);
      UsesCount(db, next, permit);
      ClaimedAtMostOnce(next, events[1..], permit);
    }
  }

  lemma UseIsAtMostOne(db: Db, permit: Id)
    requires Inv(db) && permit in db.permits
    ensures db.permits[permit].useCount <= 1
  {
    hide ApprovalsOk, ReceiptsOk, CommandsOk;
    assert PermitOk(db, db.permits[permit]);
  }

  lemma PermitRemains(x: Db, y: Db, permit: Id)
    requires Grows(x, y) && permit in x.permits
    ensures permit in y.permits && PermitAdvances(x.permits[permit], y.permits[permit])
  {
  }

  /* ---- Generations fence permits ---- */

  /** The policy or one of the four controls has moved on since the permit was issued. */
  ghost predicate Stale(db: Db, p: Permit) {
    && p.request in db.approvals && p.policy in db.policies
    && var a := db.approvals[p.request];
       || db.policies[p.policy].generation != p.policyGeneration
       || Generations(db, a.owner, a.room, a.policy) != p.generations
  }

  lemma StaleMeansOlder(db: Db, p: Permit)
    requires Inv(db) && PermitOk(db, p) && p.policy in db.policies
    ensures Stale(db, p) <==>
            || p.policyGeneration < db.policies[p.policy].generation
            || exists i ::
               0 <= i < 4 && p.generations[i] < Generations(db, p.owner, db.approvals[p.request].room, p.policy)[i]
  {
    hide PermitsOk, ReceiptsOk, CommandsOk, TallyOk, GenerationOf;
    assert ApprovalLinked(db, db.approvals[p.request]);
    var now := Generations(db, p.owner, db.approvals[p.request].room, p.policy);
    if forall i :: 0 <= i < 4 ==> !(p.generations[i] < now[i]) {
      assert now == p.generations;
    }
  }

  lemma StaleStays(x: Db, y: Db, permit: Id)
    requires Inv(x) && Inv(y) && Grows(x, y) && permit in x.permits && Stale(x, x.permits[permit])
    ensures permit in y.permits && Stale(y, y.permits[permit])
  {
    hide Inv, Generations, Stale;
    var p, q := x.permits[permit], y.permits[permit];
    PermitRemains(x, y, permit);
    PermitIsOk(x, permit);
    PermitIsOk(y, permit);
    StaleMeansOlder(x, p);
    StaleMeansOlder(y, q);
    GenerationsGrow(x, y, p.owner, x.approvals[p.request].room, p.policy);
    if i :| 0 <= i < 4 && p.generations[i] < Generations(x, p.owner, x.approvals[p.request].room, p.policy)[i] {
      assert q.generations[i] < Generations(y, q.owner, y.approvals[q.request].room, q.policy)[i];
    }
  }

  lemma GenerationsGrow(x: Db, y: Db, owner: Id, room: Id, policy: Id)
    requires Grows(x, y)
    ensures forall i :: 0 <= i < 4 ==> Generations(x, owner, room, policy)[i] <= Generations(y, owner, room, policy)[i]
  {
    hide GenerationOf;
  }

  lemma StaleIsRefused(db: Db, w: World, owner: Id, permit: Id, executor: Id, now: Time)
    requires Inv(db) && permit in db.permits && Stale(db, db.permits[permit])
    ensures ClaimError(db, w, owner, permit, executor, now).Some?
  {
    hide ReceiptsOk, CommandsOk, TallyOk, Generations, RunError;
    assert PermitOk(db, db.permits[permit]);
  }

  /** A permit once stale never passes the checks of a claim again, whatever is enabled or expires later. */
  lemma StaleForEver(db: Db, events: seq<Event>, w: World, owner: Id, permit: Id, executor: Id, now: Time)
    requires Inv(db) && permit in db.permits && Stale(db, db.permits[permit])
    ensures ClaimError(Run(db, events), w, owner, permit, executor, now).Some?
  {
    hide Inv, Stale, Run, ClaimError;
    RunKeepsInv(db, events);
    RunGrows(db, events);
    StaleStays(db, Run(db, events), permit);
    StaleIsRefused(Run(db, events), w, owner, permit, executor, now);
  }

  /** The step writes the permit's policy or one of the four controls that concern it. */
  ghost predicate Fences(db: Db, e: Event, permit: Id) {
    && permit in db.permits && db.permits[permit].request in db.approvals
    && var p := db.permits[permit];
       || (&& e.step.DoUpdatePolicy? && e.step.policy == p.policy
           && UpdatePolicyError(db, e.step.owner, e.step.policy, e.step.expectedVersion, e.step.change).None?)
       || (&& e.step.DoControl? && SetControlError(db, e.step.scope, e.step.byAdmin).None?
           && e.step.scope in Scopes(p.owner, db.approvals[p.request].room, p.policy))
  }

  lemma FencingMakesStale(db: Db, e: Event, permit: Id)
    requires Inv(db) && Fences(db, e, permit)
    ensures permit in Apply(db, e).permits && Stale(Apply(db, e), Apply(db, e).permits[permit])
  {
    hide Inv, Apply, Generations, Stale, SetControlError, UpdatePolicyError;
    var y := Apply(db, e);
    var p := db.permits[permit];
    StepGrows(db, e);
    StepKeepsInv(db, e);
    PermitRemains(db, y, permit);
    PermitIsOk(db, permit);
    PermitIsOk(y, permit);
    StaleMeansOlder(y, y.permits[permit]);
    if e.step.DoControl? {
      var i :| 0 <= i < 4 && Scopes(p.owner, db.approvals[p.request].room, p.policy)[i] == e.step.scope;
      ControlStepRaises(db, e);
      GenerationIs(db, p.owner, db.approvals[p.request].room, p.policy, i);
      GenerationIs(y, p.owner, db.approvals[p.request].room, p.policy, i);
      assert y.permits[permit].generations[i] < Generations(y, p.owner, y.approvals[p.request].room, p.policy)[i];
    } else {
      UpdateStepRaises(db, e);
    }
  }

  lemma PermitIsOk(db: Db, permit: Id)
    requires Inv(db) && permit in db.permits
    ensures PermitOk(db, db.permits[permit])
    ensures var p := db.permits[permit];
            && p.request in db.approvals && p.policy in db.policies && db.approvals[p.request].owner == p.owner
            && db.approvals[p.request].command == p.command && p.expiresAt <= db.approvals[p.request].expiresAt
            && db.approvals[p.request].policy == p.policy && |p.generations| == 4
            && p.policyGeneration <= db.policies[p.policy].generation
            && db.approvals[p.request].room == db.policies[p.policy].room && db.policies[p.policy].owner == p.owner
            && forall i ::
               0 <= i < 4 ==> p.generations[i] <= Generations(db, p.owner, db.approvals[p.request].room, p.policy)[i]
  {
    hide ReceiptsOk, CommandsOk, TallyOk, Generations, UseOk;
    assert PermitOk(db, db.permits[permit]);
    assert ApprovalLinked(db, db.approvals[db.permits[permit].request]);
  }

  lemma GenerationIs(db: Db, owner: Id, room: Id, policy: Id, i: nat)
    requires i < 4
    ensures Generations(db, owner, room, policy)[i] == GenerationOf(db.controls, Scopes(owner, room, policy)[i])
  {
  }

  lemma ControlStepRaises(db: Db, e: Event)
    requires e.step.DoControl? && SetControlError(db, e.step.scope, e.step.byAdmin).None?
    ensures GenerationOf(Apply(db, e).controls, e.step.scope) == GenerationOf(db.controls, e.step.scope) + 1
    ensures Apply(db, e).approvals == db.approvals
  {
    hide SetControl, GenerationOf;
    ControlRaises(db, e.step.scope, e.step.byAdmin, e.step.state, e.step.until);
    ControlLeavesUses(db, e.step.scope, e.step.byAdmin, e.step.state, e.step.until);
  }

  lemma UpdateStepRaises(db: Db, e: Event)
    requires e.step.DoUpdatePolicy?
    requires UpdatePolicyError(db, e.step.owner, e.step.policy, e.step.expectedVersion, e.step.change).None?
    ensures e.step.policy in Apply(db, e).policies
    ensures Apply(db, e).policies[e.step.policy].generation == db.policies[e.step.policy].generation + 1
  {
    hide Revocable;
  }

  lemma ControlRaises(db: Db, scope: Scope, byAdmin: bool, state: ControlState, until: Option<Time>)
    requires SetControlError(db, scope, byAdmin).None?
    ensures GenerationOf(SetControl(db, scope, byAdmin, state, until).controls, scope) ==
            GenerationOf(db.controls, scope) + 1
  {
    hide Reach;
  }

  /**
   * So a claim that passes its checks proves that since the permit was issued no
   * update of its policy and no change of a control in its four scopes took effect.
   */
  lemma NoClaimAfterFencing(db: Db, e: Event, rest: seq<Event>, w: World, owner: Id, permit: Id, executor: Id,
                            now: Time)
    requires Inv(db) && Fences(db, e, permit)
    ensures ClaimError(Run(Apply(db, e), rest), w, owner, permit, executor, now).Some?
  {
    hide Inv, Fences, Stale, Run, Apply, ClaimError;
    StepKeepsInv(db, e);
    FencingMakesStale(db, e, permit);
    StaleForEver(Apply(db, e), rest, w, owner, permit, executor, now);
  }

  /** Once the policy has been updated a request can neither get a permit nor have its permit claimed, ever. */
  lemma UpdatedPolicyEndsRequest(db: Db, e: Event, rest: seq<Event>, w: World, owner: Id, request: Id, ttl: int, id: Id,
                                 now: Time)
    requires Inv(db) && request in db.approvals
    requires e.step.DoUpdatePolicy? && e.step.policy == db.approvals[request].policy
    requires UpdatePolicyError(db, e.step.owner, e.step.policy, e.step.expectedVersion, e.step.change).None?
    ensures IssueError(Run(Apply(db, e), rest), w, owner, request, ttl, id, now).Some?
    ensures forall p, executor ::
              p in Run(Apply(db, e), rest).permits && Run(Apply(db, e), rest).permits[p].request == request ==>
                ClaimError(Run(Apply(db, e), rest), w, owner, p, executor, now).Some?
  {
    hide Inv, Apply, Run, UpdatePolicyError, RunError;
    var mid, last := Apply(db, e), Run(Apply(db, e), rest);
    assert ApprovalLinked(db, db.approvals[request]) by { RequestIsLinked(db, request); }
    UpdateStepRaises(db, e);
    StepGrows(db, e);
    RunGrows(mid, rest);
    GrowsTransitive(db, mid, last);
    OutdatedRequest(db, mid, last, request);
  }

  lemma RequestIsLinked(db: Db, request: Id)
    requires Inv(db) && request in db.approvals
    ensures ApprovalLinked(db, db.approvals[request])
  {
    hide PermitsOk, ReceiptsOk, CommandsOk, TallyOk;
  }

  lemma OutdatedRequest(db: Db, mid: Db, last: Db, request: Id)
    requires request in db.approvals && ApprovalLinked(db, db.approvals[request]) && Grows(db, last) && Grows(mid, last)
    requires db.approvals[request].policy in mid.policies
    requires var policy := db.approvals[request].policy;
             mid.policies[policy].generation > db.policies[policy].generation
    ensures request in last.approvals && IntegrityError(last, request) in {Some(StalePolicy), Some(NotFound)}
  {
    hide PermitAdvances, GenerationOf;
  }

  /* ---- Pausing and killing ---- */

  /** Where a permit stands among the controls. */
  predicate Concerned(db: Db, p: Permit, scope: Scope) {
    p.request in db.approvals && scope in Scopes(p.owner, db.approvals[p.request].room, p.policy)
  }

  predicate IsStop(db: Db, e: Event) {
    e.step.DoControl? && !e.step.state.Enabled? && SetControlError(db, e.step.scope, e.step.byAdmin).None?
  }

  /** The rows that a stop revokes are exactly the running permits under the control. */
  lemma ReachIsScope(db: Db, scope: Scope, permit: Id)
    requires Inv(db) && permit in db.permits && SetControlError(db, scope, true).None?
    ensures var (owner, room, policy) := Reach(db, scope);
            Revocable(db, db.permits[permit], owner, room, policy) <==>
              (db.permits[permit].status.Issued? || db.permits[permit].status.Claimed?)
                && Concerned(db, db.permits[permit], scope)
  {
    PermitIsOk(db, permit);
    hide Inv, Generations;
  }

  /** A control is refused to everybody but administrators, and on rooms and policies that its owner does not have. */
  lemma ControlWrittenExactly(db: Db, scope: Scope, byAdmin: bool)
    ensures SetControlError(db, scope, byAdmin).None? <==>
            && byAdmin
            && (scope.InRoom? ==> scope.room in db.rooms && db.rooms[scope.room] == scope.owner)
            && (scope.UnderPolicy? ==> scope.policy in db.policies && db.policies[scope.policy].owner == scope.owner)
    ensures SetControlError(db, scope, byAdmin).Some? ==>
              SetControlError(db, scope, byAdmin).value == if byAdmin then NotFound else NotAdmin
  {
  }

  predicate LoopConcerned(l: Loop, scope: Scope) {
    scope in Scopes(l.owner, l.room, l.policy)
  }

  lemma LoopReachIsScope(db: Db, scope: Scope, l: Loop)
    requires SetControlError(db, scope, true).None?
    requires l.policy in db.policies && db.policies[l.policy].room == l.room
    ensures var (owner, room, policy) := Reach(db, scope);
            Stoppable(l, owner, room, policy) <==> !IsOver(l.status) && LoopConcerned(l, scope)
  {
  }

  /**
   * After a pause or a kill nothing under the control is still running: its permits
   * are revoked and its unfinished loops paused or cancelled, as the control says.
   * Nothing else has changed.
   */
  lemma StopStops(db: Db, e: Event)
    requires Inv(db) && IsStop(db, e)
    ensures var y := Apply(db, e);
            && y == db.(controls := y.controls, permits := y.permits, loops := y.loops)
            && y.permits.Keys == db.permits.Keys && y.loops.Keys == db.loops.Keys
            && (forall p :: p in db.permits ==>
                  y.permits[p] == if Concerned(db, db.permits[p], e.step.scope)
                    && (db.permits[p].status.Issued? || db.permits[p].status.Claimed?)
                                  then db.permits[p].(status := Revoked) else db.permits[p])
            && (forall l :: l in db.loops ==>
                  if LoopConcerned(db.loops[l], e.step.scope)
                     && db.loops[l].status !in {LoopSucceeded, Exhausted, LoopCancelled}
                  then
                    && (e.step.state.Paused? ==> y.loops[l].status.LoopPaused?)
                    && (e.step.state.Killed? ==> y.loops[l].status.LoopCancelled?)
                    && y.loops[l] == db.loops[l].(status := y.loops[l].status, generation := db.loops[l].generation + 1)
                  else y.loops[l] == db.loops[l])
            && forall s :: s != e.step.scope ==> GenerationOf(y.controls, s) == GenerationOf(db.controls, s)
  {
    hide InOrder, Reach, Concerned, LoopConcerned, Stoppable, Revocable;
    var scope := e.step.scope;
    forall p | p in db.permits {
      ReachIsScope(db, scope, p);
    }
    forall l | l in db.loops {
      LoopReachIsScope(db, scope, db.loops[l]);
    }
    StopIs(db, e);
  }

  lemma RevocableReadsApprovals(x: Db, y: Db, p: Permit, owner: Option<Id>, room: Option<Id>, policy: Option<Id>)
    requires x.approvals == y.approvals
    ensures Revocable(x, p, owner, room, policy) == Revocable(y, p, owner, room, policy)
  {
  }

  lemma StopIs(db: Db, e: Event)
    requires IsStop(db, e)
    ensures var (owner, room, policy) := Reach(db, e.step.scope);
            var y := Apply(db, e);
            && y == db.(controls := y.controls, permits := y.permits, loops := y.loops)
            && y.permits.Keys == db.permits.Keys && y.loops.Keys == db.loops.Keys
            && (forall p :: p in db.permits ==>
                  y.permits[p] == if Revocable(db, db.permits[p], owner, room, policy) then
                    db.permits[p].(status := Revoked) else db.permits[p])
            && (forall l :: l in db.loops ==>
                  y.loops[l] == if Stoppable(db.loops[l], owner, room, policy) then StopLoop(db.loops[l], e.step.state)
                    else db.loops[l])
            && forall s :: s != e.step.scope ==> GenerationOf(y.controls, s) == GenerationOf(db.controls, s)
  {
    hide Reach, Stoppable, Revocable, SetControlError, StopLoop, RevokePermits, StopLoops, GenerationOf;
    var (owner, room, policy) := Reach(db, e.step.scope);
    var written := WriteControl(db, e.step.scope, e.step.state, e.step.until);
    RevokingIs(db, written, owner, room, policy);
    StoppingIs(RevokePermits(written, owner, room, policy), e.step.state, owner, room, policy);
    OtherGenerationsStay(db, e.step.scope, e.step.state, e.step.until);
  }

  lemma RevokingIs(db: Db, written: Db, owner: Option<Id>, room: Option<Id>, policy: Option<Id>)
    requires written == db.(controls := written.controls)
    ensures var y := RevokePermits(written, owner, room, policy);
            && y == written.(permits := y.permits) && y.permits.Keys == db.permits.Keys
            && forall p :: p in db.permits ==>
                 y.permits[p] == if Revocable(db, db.permits[p], owner, room, policy)
                                 then db.permits[p].(status := Revoked) else db.permits[p]
  {
    hide Revocable;
    forall p | p in db.permits
      ensures Revocable(written, db.permits[p], owner, room, policy) ==
              Revocable(db, db.permits[p], owner, room, policy)
    {
      RevocableReadsApprovals(written, db, db.permits[p], owner, room, policy);
    }
  }

  lemma StoppingIs(db: Db, state: ControlState, owner: Option<Id>, room: Option<Id>, policy: Option<Id>)
    ensures var y := StopLoops(db, state, owner, room, policy);
            && y == db.(loops := y.loops) && y.loops.Keys == db.loops.Keys
            && forall l :: l in db.loops ==>
                 y.loops[l] == if Stoppable(db.loops[l], owner, room, policy)
                               then StopLoop(db.loops[l], state) else db.loops[l]
  {
    hide Stoppable, StopLoop;
  }

  lemma OtherGenerationsStay(db: Db, scope: Scope, state: ControlState, until: Option<Time>)
    ensures forall s :: s != scope ==>
              GenerationOf(WriteControl(db, scope, state, until).controls, s) == GenerationOf(db.controls, s)
  {
  }

  /* ---- Between the checks and the compare-and-set ---- */

  predicate Enables(e: Event) {
    e.step.DoControl? && e.step.state.Enabled?
  }

  /** The step takes the permit away if it is running: an applied pause, kill or policy update that fences it. */
  ghost predicate Withdraws(db: Db, e: Event, permit: Id) {
    Fences(db, e, permit) && !Enables(e)
  }

  lemma WithdrawnIsOver(db: Db, e: Event, permit: Id)
    requires Inv(db) && Withdraws(db, e, permit)
    ensures permit in Apply(db, e).permits && !Apply(db, e).permits[permit].status.Issued?
  {
    hide Inv, Generations, Reach, SetControlError;
    PermitIsOk(db, permit);
    if e.step.DoControl? {
      ReachIsScope(db, e.step.scope, permit) by { AdminOnly(db, e); }
      StopIs(db, e);
    }
  }

  lemma AdminOnly(db: Db, e: Event)
    requires IsStop(db, e)
    ensures SetControlError(db, e.step.scope, true).None?
  {
  }

  /**
   * A claim that has passed its checks still fails if its permit was withdrawn
   * before the compare-and-set: no later step of any run makes it claimed.
   */
  lemma WithdrawalBeatsClaimInFlight(db: Db, e: Event, rest: seq<Event>, t: Ticket)
    requires Inv(db) && Withdraws(db, e, t.permit)
    ensures var last := Run(Apply(db, e), rest); !Claimable(last, t) && ClaimsOf(Apply(db, e), rest, t.permit) == 0
  {
    hide Inv, Apply, Run, Withdraws;
    WithdrawnIsOver(db, e, t.permit);
    RunGrows(Apply(db, e), rest);
    PermitRemains(Apply(db, e), Run(Apply(db, e), rest), t.permit);
    NoClaimsOnceOver(Apply(db, e), rest, t.permit);
  }

  lemma {:induction false} NoClaimsOnceOver(db: Db, events: seq<Event>, permit: Id)
    requires permit in db.permits && !db.permits[permit].status.Issued?
    ensures ClaimsOf(db, events, permit) == 0
    decreases events
  {
    hide Apply;
    if events != [] {
      StepGrows(db, events[0]);
      PermitRemains(db, Apply(db, events[0]), permit);
      NoClaimsOnceOver(Apply(db, events[0]), events[1..], permit);
    }
  }

  /** What else ends a permit that is not claimed yet: its time, a revocation, or another claim. */
  ghost predicate Ends(db: Db, e: Event, t: Ticket) {
    && t.permit in db.permits
    && match e.step
       case DoOutdate => db.permits[t.permit].expiresAt <= e.now
       case DoRevoke(owner, room, policy) => Revocable(db, db.permits[t.permit], owner, room, policy)
       case DoClaimWrite(u) => u in db.inFlight && u.permit == t.permit && u.token == t.token
       case _ => false
  }

  ghost predicate TakesAway(db: Db, e: Event, t: Ticket) {
    Withdraws(db, e, t.permit) || Ends(db, e, t)
  }

  /** The claim can still be made after the step exactly when the step does not take the permit away. */
  lemma StepTakesExactly(db: Db, e: Event, t: Ticket)
    requires Inv(db) && Claimable(db, t)
    ensures Claimable(Apply(db, e), t) <==> !TakesAway(db, e, t)
    ensures t in db.inFlight && !TakesAway(db, e, t) ==> t in Apply(db, e).inFlight
  {
    hide Inv, Fences, Apply;
    if Withdraws(db, e, t.permit) {
      WithdrawnIsOver(db, e, t.permit);
    } else if !WritesPermits(e.step) {
      OtherStepsKeepPermit(db, e, t.permit);
    } else if e.step.DoControl? || e.step.DoUpdatePolicy? {
      UnfencedKeeps(db, e, t);
    } else {
      EndsExactly(db, e, t);
    }
  }

  lemma UnfencedKeeps(db: Db, e: Event, t: Ticket)
    requires Inv(db) && Claimable(db, t) && (e.step.DoControl? || e.step.DoUpdatePolicy?) && !Withdraws(db, e, t.permit)
    ensures PermitKept(db, Apply(db, e), t.permit)
  {
    hide Inv, Generations, Reach, SetControlError, Stoppable, Revocable, StopLoop;
    PermitIsOk(db, t.permit);
    if e.step.DoUpdatePolicy? {
      UpdateKeepsOthers(db, e, t.permit);
    } else if IsStop(db, e) {
      AdminOnly(db, e);
      ReachIsScope(db, e.step.scope, t.permit);
      StopIs(db, e);
    }
  }

  lemma UpdateKeepsOthers(db: Db, e: Event, permit: Id)
    requires permit in db.permits && e.step.DoUpdatePolicy?
    requires UpdatePolicyError(db, e.step.owner, e.step.policy, e.step.expectedVersion, e.step.change).None? ==>
               e.step.policy != db.permits[permit].policy
    ensures PermitKept(db, Apply(db, e), permit)
  {
  }

  lemma EndsExactly(db: Db, e: Event, t: Ticket)
    requires Claimable(db, t) && (e.step.DoOutdate? || e.step.DoRevoke? || e.step.DoClaimWrite? || e.step.DoReceipt?)
    ensures Claimable(Apply(db, e), t) <==> !Ends(db, e, t)
    ensures t in db.inFlight && !Ends(db, e, t) ==> t in Apply(db, e).inFlight
  {
    hide Revocable, Claimable, ClaimWrite, OutdatePermits, RevokePermits, RecordReceipt;
    match e.step
    case DoOutdate => OutdatingEnds(db, e.now, t);
    case DoRevoke(owner, room, policy) => RevokingEnds(db, owner, room, policy, t);
    case DoReceipt(q, id) => ReceiptNeedsClaim(db, q, id, t);
    case DoClaimWrite(u) => OtherClaimLeaves(db, u, t);
  }

  lemma OutdatingEnds(db: Db, now: Time, t: Ticket)
    requires Claimable(db, t)
    ensures t.permit in db.permits && OutdatePermits(db, now).inFlight == db.inFlight
    ensures Claimable(OutdatePermits(db, now), t) <==> !(db.permits[t.permit].expiresAt <= now)
  {
  }

  lemma RevokingEnds(db: Db, owner: Option<Id>, room: Option<Id>, policy: Option<Id>, t: Ticket)
    requires Claimable(db, t)
    ensures t.permit in db.permits && RevokePermits(db, owner, room, policy).inFlight == db.inFlight
    ensures Claimable(RevokePermits(db, owner, room, policy), t) <==>
              !Revocable(db, db.permits[t.permit], owner, room, policy)
  {
    hide Revocable;
  }

  lemma ReceiptNeedsClaim(db: Db, q: ReceiptRequest, id: Id, t: Ticket)
    requires Claimable(db, t)
    ensures Claimable(RecordReceipt(db, q, id), t) && RecordReceipt(db, q, id).inFlight == db.inFlight
  {
    hide KnownReceiptKey;
  }

  lemma OtherClaimLeaves(db: Db, u: Ticket, t: Ticket)
    requires Claimable(db, t)
    ensures t.permit in db.permits
    ensures Claimable(ClaimWrite(db, u), t) <==> !(u in db.inFlight && u.permit == t.permit && u.token == t.token)
    ensures t in db.inFlight && Claimable(ClaimWrite(db, u), t) ==> t in ClaimWrite(db, u).inFlight
  {
  }

  /** No step of the run takes the permit away. */
  ghost predicate NeverTaken(db: Db, events: seq<Event>, t: Ticket)
    decreases events
  {
    events == [] || (!TakesAway(db, events[0], t) && NeverTaken(Apply(db, events[0]), events[1..], t))
  }

  /** Some step of the run fences the permit. */
  ghost predicate Fenced(db: Db, events: seq<Event>, permit: Id)
    decreases events
  {
    events != [] && (Fences(db, events[0], permit) || Fenced(Apply(db, events[0]), events[1..], permit))
  }

  lemma {:induction false} TakenExactly(db: Db, events: seq<Event>, t: Ticket)
    requires Inv(db) && Claimable(db, t) && t in db.inFlight
    ensures Claimable(Run(db, events), t) <==> NeverTaken(db, events, t)
    ensures NeverTaken(db, events, t) ==> t in Run(db, events).inFlight
    decreases events
  {
    hide Inv, Apply, TakesAway;
    if events != [] {
      var next := Apply(db, events[0]);
      StepTakesExactly(db, events[0], t);
      StepKeepsInv(db, events[0]);
      if TakesAway(db, events[0], t) {
        hide Run, Grows;
        StepGrows(db, events[0]);
        PermitRemains(db, next, t.permit);
        RunGrows(next, events[1..]);
        PermitRemains(next, Run(next, events[1..]), t.permit);
        assert Run(db, events) == Run(next, events[1..]);
      } else {
        TakenExactly(next, events[1..], t);
      }
    }
  }

  lemma {:induction false} FencedIsStale(db: Db, events: seq<Event>, permit: Id)
    requires Inv(db) && permit in db.permits && Fenced(db, events, permit)
    ensures permit in Run(db, events).permits && Stale(Run(db, events), Run(db, events).permits[permit])
    decreases events
  {
    hide Inv, Apply, Stale, Fences;
    var next := Apply(db, events[0]);
    StepKeepsInv(db, events[0]);
    StepGrows(db, events[0]);
    PermitRemains(db, next, permit);
    if Fences(db, events[0], permit) {
      FencingMakesStale(db, events[0], permit);
      RunKeepsInv(next, events[1..]);
      RunGrows(next, events[1..]);
      StaleStays(next, Run(next, events[1..]), permit);
    } else {
      FencedIsStale(next, events[1..], permit);
    }
  }

  /**
   * The compare-and-set does not look at generations. A claim whose checks have
   * passed goes through at the end of a run exactly when no step of the run was a
   * pause, a kill or a policy update that fences the permit, and none ended it
   * otherwise. Controls may have been enabled: the permit claimed is then stale.
   */
  lemma ClaimInFlightExactly(db: Db, events: seq<Event>, t: Ticket)
    requires Inv(db) && Claimable(db, t) && t in db.inFlight
    ensures var last :=
            Run(db, events); ClaimHappens(last, ClaimWrite(last, t), t.permit) <==> NeverTaken(db, events, t)
    ensures Fenced(db, events, t.permit) ==>
              t.permit in Run(db, events).permits && Stale(Run(db, events), Run(db, events).permits[t.permit])
  {
    hide Inv, Run, NeverTaken, Fenced, Stale;
    TakenExactly(db, events, t);
    RunGrows(db, events);
    PermitRemains(db, Run(db, events), t.permit);
    if Fenced(db, events, t.permit) {
      FencedIsStale(db, events, t.permit);
    }
  }

  /** Every step of the run fences the permit. */
  ghost predicate AllFence(db: Db, events: seq<Event>, permit: Id)
    decreases events
  {
    events == [] || (Fences(db, events[0], permit) && AllFence(Apply(db, events[0]), events[1..], permit))
  }

  lemma {:induction false} FencesThatEnable(db: Db, events: seq<Event>, t: Ticket)
    requires Inv(db) && Claimable(db, t) && AllFence(db, events, t.permit)
    ensures NeverTaken(db, events, t) <==> forall e :: e in events ==> Enables(e)
    decreases events
  {
    hide Inv, Apply, Fences;
    if events != [] {
      assert !Ends(db, events[0], t) by { FencingDoesNotEnd(db, events[0], t); }
      assert events == [events[0]] + events[1..];
      if Enables(events[0]) {
        StepTakesExactly(db, events[0], t);
        StepKeepsInv(db, events[0]);
        FencesThatEnable(Apply(db, events[0]), events[1..], t);
      } else {
        assert events[0] in events;
      }
    }
  }

  lemma FencingDoesNotEnd(db: Db, e: Event, t: Ticket)
    requires Fences(db, e, t.permit)
    ensures !Ends(db, e, t)
  {
  }

  /** Among steps that fence the permit, exactly those that enable a control let a claim in flight slip through. */
  lemma EnablingSlipsBetween(db: Db, events: seq<Event>, t: Ticket)
    requires Inv(db) && Claimable(db, t) && t in db.inFlight && AllFence(db, events, t.permit)
    ensures var last := Run(db, events);
            ClaimHappens(last, ClaimWrite(last, t), t.permit) <==> forall e :: e in events ==> Enables(e)
    ensures events != [] ==>
              t.permit in Run(db, events).permits && Stale(Run(db, events), Run(db, events).permits[t.permit])
  {
    hide Inv, Run, Stale, Fences, ClaimHappens, ClaimWrite, Apply;
    FencesThatEnable(db, events, t);
    ClaimInFlightExactly(db, events, t);
  }

  /* ---- The effective control ---- */

  /** The worst of the states of the four controls. */
  function Effective(db: Db, owner: Id, room: Id, policy: Id, now: Time): ControlState {
    var scopes := Scopes(owner, room, policy);
    if exists s :: s in scopes && StateAt(db, s, now).Killed? then Killed
    else if exists s :: s in scopes && StateAt(db, s, now).Paused? then Paused
    else Enabled
  }

  /** A control is in force from when it is written until it expires, and writing one changes no other. */
  lemma ControlTakesEffect(db: Db, scope: Scope, state: ControlState, until: Option<Time>, s: Scope, now: Time)
    requires SetControlError(db, scope, true).None?
    ensures StateAt(SetControl(db, scope, true, state, until), s, now) ==
            if s != scope then StateAt(db, s, now) else if until.None? || now < until.value then state else Enabled
    ensures s !in db.controls ==> StateAt(db, s, now).Enabled?
  {
    hide Reach, SetControlError;
  }

  /** Nothing stops the request's policy: no stop in the environment, the policy active, all four controls enabled. */
  ghost predicate Runs(db: Db, w: World, request: Id, now: Time)
    requires request in db.approvals
  {
    var a := db.approvals[request];
    && !w.emergencyStop && a.policy in db.policies && db.policies[a.policy].status.PolicyActive?
    && Effective(db, a.owner, a.room, a.policy, now).Enabled?
  }

  lemma RunsIsNoError(db: Db, w: World, request: Id, now: Time)
    requires request in db.approvals && db.approvals[request].policy in db.policies
    ensures var a := db.approvals[request];
            RunError(db, w, a.owner, a.room, a.policy, now).None? <==> Runs(db, w, request, now)
  {
    hide StateAt, Scopes;
  }

  /** A request is still what was approved exactly while its policy is active and has not been updated. */
  lemma IntactExactly(db: Db, request: Id)
    requires Inv(db) && request in db.approvals
    ensures var a := db.approvals[request];
            && a.policy in db.policies && a.command in db.commands
            && (IntegrityError(db, request).None? <==>
                db.policies[a.policy].generation == a.policyGeneration && db.policies[a.policy].status.PolicyActive?)
  {
    RequestIsLinked(db, request);
    hide Inv;
  }

  /**
   * The checks of a claim pass exactly for the executor of an issued permit that has
   * time left, while its command is accepted, nothing stops its policy, and neither
   * the policy nor a control in its scopes has changed since it was issued.
   */
  lemma ClaimPassesExactly(db: Db, w: World, owner: Id, permit: Id, executor: Id, now: Time)
    requires Inv(db)
    ensures ClaimError(db, w, owner, permit, executor, now).None? <==>
            && permit in db.permits
            && var p := db.permits[permit];
               && p.owner == owner && p.executor == executor && p.status.Issued? && now < p.expiresAt
               && p.request in db.approvals && Runs(db, w, p.request, now) && !Stale(db, p)
               && p.command in db.commands && db.commands[p.command].status.Accepted?
  {
    hide Inv, RunError, Runs, Generations, IntegrityError;
    if permit in db.permits {
      PermitIsOk(db, permit);
      IntactExactly(db, db.permits[permit].request);
      RunsIsNoError(db, w, db.permits[permit].request, now);
      RunsMeansActive(db, w, db.permits[permit].request, now);
    }
  }

  lemma RunsMeansActive(db: Db, w: World, request: Id, now: Time)
    requires request in db.approvals
    ensures Runs(db, w, request, now) ==>
              var a := db.approvals[request]; a.policy in db.policies && db.policies[a.policy].status.PolicyActive?
  {
  }

  /**
   * What a claim that passes can rely on: a well-approved request that its policy
   * allows as it is now, and a command that is still what was approved.
   */
  lemma ClaimsNeedEnabled(db: Db, w: World, owner: Id, permit: Id, executor: Id, now: Time)
    requires Inv(db) && ClaimError(db, w, owner, permit, executor, now).None?
    ensures permit in db.permits && db.permits[permit].request in db.approvals && !w.emergencyStop
    ensures var p := db.permits[permit];
            var a := db.approvals[p.request];
            && WellApproved(db, p.request) && a.policy in db.policies && Allows(db.policies[a.policy], a)
            && p.expiresAt <= a.expiresAt && p.command in db.commands
            && db.commands[p.command].envelope == a.payload && a.payload.target == executor
  {
    hide RunError, Generations, GenerationOf, WellApproved, EnoughVotes, ReceiptsOk, CommandsOk, TallyOk, UseOk;
    ClaimPassesExactly(db, w, owner, permit, executor, now);
    assert PermitOk(db, db.permits[permit]);
    assert ApprovalLinked(db, db.approvals[db.permits[permit].request]);
    StatusFollowsVotes(db, db.permits[permit].request);
  }

  /* ---- Permits as they are given out ---- */

  /**
   * A permit is given out, or a running one handed back, exactly for an approved
   * request under an unchanged policy that nothing stops; a new one in time only.
   */
  lemma PermitGrantedExactly(db: Db, w: World, owner: Id, request: Id, ttl: int, id: Id, now: Time)
    requires Inv(db)
    ensures IssueError(db, w, owner, request, ttl, id, now).None? <==>
            && request in db.approvals && db.approvals[request].owner == owner && db.approvals[request].status.Approved?
            && Runs(db, w, request, now)
            && db.policies[db.approvals[request].policy].generation == db.approvals[request].policyGeneration
            && if exists p :: p in db.permits && db.permits[p].request == request
               then exists p :: p in db.permits && db.permits[p].request == request && now < db.permits[p].expiresAt
                                && db.permits[p].status in {Issued, Claimed}
               else 30 <= ttl <= 3600 && now < db.approvals[request].expiresAt && id !in db.permits
  {
    hide Inv, RunError, Runs, IntegrityError;
    if request in db.approvals {
      IntactExactly(db, request);
      RunsIsNoError(db, w, request, now);
      RunsMeansActive(db, w, request, now);
    }
  }

  /** A new permit is for the request, carries the generations of now, and ends with its time or the request's. */
  lemma PermitAsGranted(db: Db, w: World, owner: Id, request: Id, ttl: int, id: Id, now: Time)
    requires Inv(db) && IssueError(db, w, owner, request, ttl, id, now).None?
    requires forall p :: p in db.permits ==> db.permits[p].request != request
    ensures var y := IssuePermit(db, w, owner, request, ttl, id, now);
            && id !in db.permits && y == db.(permits := db.permits[id := y.permits[id]]) && request in db.approvals
            && var p, a := y.permits[id], db.approvals[request];
               && p.owner == owner && p.request == request && p.policy == a.policy && p.command == a.command
               && p.executor == a.executor && p.status.Issued? && p.useCount == 0 && !p.wasClaimed
               && !Stale(y, p) && now < p.expiresAt
               && p.expiresAt <= now + ttl && p.expiresAt <= a.expiresAt
               && (p.expiresAt == now + ttl || p.expiresAt == a.expiresAt)
  {
    hide Inv, RunError, IntegrityError, GenerationOf;
    IntactExactly(db, request);
  }

  /* ---- Updating a policy ---- */

  /** The new value where one is given, else the old. */
  predicate Took<T(==)>(given: Option<T>, was: T, is_: T) {
    (given.Some? ==> is_ == given.value) && (given.None? ==> is_ == was)
  }

  /** An update is taken exactly from the owner, for the version it names, and not if it takes all classes away. */
  lemma UpdateTakenExactly(db: Db, owner: Id, id: Id, version: int, change: PolicyChange)
    ensures UpdatePolicyError(db, owner, id, version, change).None? <==>
            id in db.policies && db.policies[id].owner == owner && db.policies[id].version == version
            && (change.classes.Some? ==> change.classes.value != {})
  {
  }

  /** It changes exactly the fields it gives and counts generation and version up. */
  lemma UpdateTakesEffect(db: Db, owner: Id, id: Id, version: int, change: PolicyChange)
    requires UpdatePolicyError(db, owner, id, version, change).None?
    ensures var y := UpdatePolicy(db, owner, id, version, change);
            && id in db.policies && id in y.policies
            && y == db.(policies := db.policies[id := y.policies[id]], permits := y.permits)
            && var p, q := db.policies[id], y.policies[id];
               && q.owner == p.owner && q.room == p.room
               && q.generation == p.generation + 1 && q.version == p.version + 1
               && Took(change.status, p.status, q.status) && Took(change.classes, p.classes, q.classes)
               && Took(change.tools, p.tools, q.tools) && Took(change.profiles, p.profiles, q.profiles)
               && Took(change.rules, p.rules, q.rules)
  {
    hide Revocable;
  }

  /** And it revokes exactly the running permits under the policy. */
  lemma UpdateRevokes(db: Db, owner: Id, id: Id, version: int, change: PolicyChange, permit: Id)
    requires Inv(db) && UpdatePolicyError(db, owner, id, version, change).None? && permit in db.permits
    ensures var y, p := UpdatePolicy(db, owner, id, version, change), db.permits[permit];
            && y.permits.Keys == db.permits.Keys
            && y.permits[permit] ==
               if p.policy == id && p.status in {Issued, Claimed} then p.(status := Revoked) else p
  {
    hide Inv, Generations;
    PermitIsOk(db, permit);
  }
}
