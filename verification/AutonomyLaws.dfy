/** What every step of the approval machinery keeps true, and what never goes back. */
module AutonomyLaws {
  import opened Common
  import opened Autonomy

  /* ---- Steps ---- */

  datatype Step =
    | DoCreatePolicy(newPolicy: Policy, newId: Id)
    | DoUpdatePolicy(owner: Id, policy: Id, expectedVersion: int, change: PolicyChange)
    | DoIssueCommand(owner: Id, envelope: Envelope, requiresApproval: bool, newId: Id)
    | DoDeliver(command: Id)
    | DoAcknowledge(owner: Id, agent: Id, command: Id)
    | DoAccept(owner: Id, agent: Id, command: Id)
    | DoReject(owner: Id, agent: Id, command: Id)
    | DoCancel(owner: Id, issuer: Id, command: Id)
    | DoComplete(owner: Id, agent: Id, command: Id, completed: bool)
    | DoAsk(question: ApprovalRequest, newId: Id)
    | DoLapse
    | DoVote(request: Id, user: User, approves: bool)
    | DoIssue(owner: Id, request: Id, ttl: int, newId: Id)
    | DoOutdate
    | DoClaimRead(owner: Id, permit: Id, executor: Id)
    | DoClaimWrite(ticket: Ticket)
    | DoReceipt(receipt: ReceiptRequest, newId: Id)
    | DoControl(scope: Scope, byAdmin: bool, state: ControlState, until: Option<Time>)
    | DoRevoke(inOwner: Option<Id>, inRoom: Option<Id>, inPolicy: Option<Id>)
    | DoOnLoops(loops: map<Id, Loop>)

  /**
   * `DoOnLoops` stands for whatever the recovery worker and operators do to loops,
   * which are made only for a policy of the same owner and room.
   */
  datatype Event = Event(step: Step, world: World, now: Time)

  function CreatePolicy(db: Db, p: Policy, id: Id): Db {
    if id in db.policies then db else db.(policies := db.policies[id := p.(generation := 1, version := 1)])
  }

  /** Every loop runs under a policy of its owner and room. */
  predicate LoopsLinked(policies: map<Id, Policy>, loops: map<Id, Loop>) {
    forall l :: l in loops ==>
      && loops[l].policy in policies && policies[loops[l].policy].owner == loops[l].owner
      && policies[loops[l].policy].room == loops[l].room
  }

  function Apply(db: Db, e: Event): Db {
    match e.step
    case DoCreatePolicy(p, id) => CreatePolicy(db, p, id)
    case DoUpdatePolicy(owner, id, version, change) => UpdatePolicy(db, owner, id, version, change)
    case DoIssueCommand(owner, envelope, requires_, id) => IssueCommand(db, owner, envelope, requires_, id)
    case DoDeliver(c) => DeliverCommand(db, c, e.now)
    case DoAcknowledge(owner, agent, c) => AcknowledgeCommand(db, owner, agent, c)
    case DoAccept(owner, agent, c) => AcceptCommand(db, owner, agent, c)
    case DoReject(owner, agent, c) => RejectCommand(db, owner, agent, c)
    case DoCancel(owner, issuer, c) => CancelCommand(db, owner, issuer, c)
    case DoComplete(owner, agent, c, completed) => CompleteCommand(db, owner, agent, c, completed)
    case DoAsk(q, id) => CreateApproval(db, e.world, q, id, e.now)
    case DoLapse => LapseApprovals(db, e.now)
    case DoVote(r, u, approves) => CastVote(db, e.world, r, u, approves, e.now)
    case DoIssue(owner, r, ttl, id) => IssuePermit(db, e.world, owner, r, ttl, id, e.now)
    case DoOutdate => OutdatePermits(db, e.now)
    case DoClaimRead(owner, p, executor) => ClaimRead(db, e.world, owner, p, executor, e.now)
    case DoClaimWrite(t) => ClaimWrite(db, t)
    case DoReceipt(q, id) => RecordReceipt(db, q, id)
    case DoControl(scope, byAdmin, state, until) => SetControl(db, scope, byAdmin, state, until)
    case DoRevoke(owner, room, policy) => RevokePermits(db, owner, room, policy)
    case DoOnLoops(loops) => if LoopsLinked(db.policies, loops) then db.(loops := loops) else db
  }

  function Run(db: Db, events: seq<Event>): Db
    decreases events
  {
    if events == [] then db else Run(Apply(db, events[0]), events[1..])
  }

  /* ---- What never goes back ---- */

  /** A policy keeps its owner and room, and all of it changes only together with its generation. */
  ghost predicate PoliciesGrow(x: map<Id, Policy>, y: map<Id, Policy>) {
    forall id :: id in x ==>
      && id in y && y[id].owner == x[id].owner && y[id].room == x[id].room
      && x[id].generation <= y[id].generation && (y[id].generation == x[id].generation ==> y[id] == x[id])
  }

  /** What was asked of whom never changes, and a finished command stays finished. */
  ghost predicate CommandsGrow(x: map<Id, Command>, y: map<Id, Command>) {
    forall id :: id in x ==>
      && id in y && y[id].owner == x[id].owner && y[id].envelope == x[id].envelope
         && y[id].requiresApproval == x[id].requiresApproval
      && (IsTerminal(x[id].status) ==> y[id].status == x[id].status)
      && (x[id].approvedBy.Some? ==> y[id].approvedBy.Some?)
  }

  ghost predicate ApprovalsGrow(x: map<Id, Approval>, y: map<Id, Approval>) {
    forall id ::
      id in x ==> id in y && y[id].(status := x[id].status) == x[id] && (!x[id].status.Open? ==> y[id] == x[id])
  }

  ghost predicate VotesGrow(x: Votes, y: Votes) {
    forall k :: k in x ==> k in y && y[k] == x[k]
  }

  predicate PermitAdvances(x: Permit, y: Permit) {
    && y.(status := x.status, useCount := x.useCount, wasClaimed := x.wasClaimed) == x
    && x.useCount <= y.useCount
    && (x.wasClaimed ==> y.wasClaimed)
    && (!x.status.Issued? ==> !y.status.Issued? && y.wasClaimed == x.wasClaimed && y.useCount == x.useCount)
    && (x.status.Consumed? ==> y.status.Consumed?)
    && (x.status.Revoked? || x.status.Outdated? ==> !y.status.Claimed?)
  }

  ghost predicate PermitsGrow(x: map<Id, Permit>, y: map<Id, Permit>) {
    forall id :: id in x ==> id in y && PermitAdvances(x[id], y[id])
  }

  ghost predicate ReceiptsGrow(x: map<Id, Receipt>, y: map<Id, Receipt>) {
    forall id :: id in x ==> id in y && y[id] == x[id]
  }

  ghost predicate ControlsGrow(x: map<Scope, Control>, y: map<Scope, Control>) {
    forall s :: GenerationOf(x, s) <= GenerationOf(y, s)
  }

  ghost predicate Grows(x: Db, y: Db) {
    && PoliciesGrow(x.policies, y.policies) && CommandsGrow(x.commands, y.commands)
    && ApprovalsGrow(x.approvals, y.approvals) && VotesGrow(x.votes, y.votes)
    && PermitsGrow(x.permits, y.permits) && ReceiptsGrow(x.receipts, y.receipts) && ControlsGrow(x.controls, y.controls)
  }

  lemma GrowsReflexive(db: Db)
    ensures Grows(db, db)
  {
  }

  lemma GrowsTransitive(x: Db, y: Db, z: Db)
    requires Grows(x, y) && Grows(y, z)
    ensures Grows(x, z)
  {
    hide GenerationOf;
    forall id | id in x.permits ensures id in z.permits && PermitAdvances(x.permits[id], z.permits[id]) {
      assert PermitAdvances(x.permits[id], y.permits[id]) && PermitAdvances(y.permits[id], z.permits[id]);
    }
  }

  lemma WithStatusGrows(db: Db, c: Id, status: CommandStatus)
    requires c in db.commands && !IsTerminal(db.commands[c].status)
    ensures Grows(db, WithStatus(db, c, status))
  {
    GrowsReflexive(db);
    hide PoliciesGrow, ApprovalsGrow, VotesGrow, PermitsGrow, ReceiptsGrow, ControlsGrow;
  }

  /** Only commands are changed, and they grow. */
  ghost predicate CommandsOnly(x: Db, y: Db) {
    Grows(x, y) && y == x.(commands := y.commands)
  }

  lemma StatusIsCommandsOnly(db: Db, c: Id, status: CommandStatus)
    ensures CommandsOnly(db, db)
    ensures c in db.commands && !IsTerminal(db.commands[c].status) ==> CommandsOnly(db, WithStatus(db, c, status))
  {
    hide Grows;
    GrowsReflexive(db);
    if c in db.commands && !IsTerminal(db.commands[c].status) {
      WithStatusGrows(db, c, status);
    }
  }

  lemma DeliverGrows(db: Db, c: Id, now: Time)
    ensures CommandsOnly(db, DeliverCommand(db, c, now))
  {
    hide CommandsOnly, WithStatus;
    StatusIsCommandsOnly(db, c, Expired);
    StatusIsCommandsOnly(db, c, Delivered);
  }

  lemma AcknowledgeGrows(db: Db, owner: Id, agent: Id, c: Id)
    ensures CommandsOnly(db, AcknowledgeCommand(db, owner, agent, c))
  {
    hide CommandsOnly, WithStatus;
    StatusIsCommandsOnly(db, c, Acknowledged);
  }

  lemma AcceptGrows(db: Db, owner: Id, agent: Id, c: Id)
    ensures CommandsOnly(db, AcceptCommand(db, owner, agent, c))
  {
    hide CommandsOnly, WithStatus;
    StatusIsCommandsOnly(db, c, Accepted);
  }

  lemma RejectGrows(db: Db, owner: Id, agent: Id, c: Id)
    ensures CommandsOnly(db, RejectCommand(db, owner, agent, c))
  {
    hide CommandsOnly, WithStatus;
    StatusIsCommandsOnly(db, c, CommandStatus.Rejected);
  }

  lemma CancelGrows(db: Db, owner: Id, issuer: Id, c: Id)
    ensures CommandsOnly(db, CancelCommand(db, owner, issuer, c))
  {
    hide CommandsOnly, WithStatus;
    StatusIsCommandsOnly(db, c, Cancelled);
  }

  lemma CompleteGrows(db: Db, owner: Id, agent: Id, c: Id, completed: bool)
    ensures CommandsOnly(db, CompleteCommand(db, owner, agent, c, completed))
  {
    hide CommandsOnly, WithStatus, ReceiptsError;
    StatusIsCommandsOnly(db, c, Completed);
    StatusIsCommandsOnly(db, c, Failed);
  }

  /** A step on commands leaves everything else alone. */
  lemma CommandStepGrows(db: Db, e: Event)
    requires e.step.DoIssueCommand? || e.step.DoDeliver? || e.step.DoAcknowledge? || e.step.DoAccept?
             || e.step.DoReject?
             || e.step.DoCancel? || e.step.DoComplete?
    ensures Grows(db, Apply(db, e)) && Apply(db, e) == db.(commands := Apply(db, e).commands)
  {
    hide Grows, DeliverCommand, AcknowledgeCommand, AcceptCommand, RejectCommand, CancelCommand, CompleteCommand,
         IssueCommand;
    match e.step
    case DoIssueCommand(owner, envelope, requires_, id) => IssueCommandGrows(db, owner, envelope, requires_, id);
    case DoDeliver(c) => DeliverGrows(db, c, e.now);
    case DoAcknowledge(owner, agent, c) => AcknowledgeGrows(db, owner, agent, c);
    case DoAccept(owner, agent, c) => AcceptGrows(db, owner, agent, c);
    case DoReject(owner, agent, c) => RejectGrows(db, owner, agent, c);
    case DoCancel(owner, issuer, c) => CancelGrows(db, owner, issuer, c);
    case DoComplete(owner, agent, c, completed) => CompleteGrows(db, owner, agent, c, completed);
  }

  lemma IssueCommandGrows(db: Db, owner: Id, envelope: Envelope, requiresApproval: bool, id: Id)
    ensures CommandsOnly(db, IssueCommand(db, owner, envelope, requiresApproval, id))
  {
    GrowsReflexive(db);
    hide PoliciesGrow, ApprovalsGrow, VotesGrow, PermitsGrow, ReceiptsGrow, ControlsGrow;
  }

  lemma ApprovalStepGrows(db: Db, e: Event)
    requires e.step.DoAsk? || e.step.DoLapse? || e.step.DoVote?
    ensures Grows(db, Apply(db, e))
  {
    hide AskError, KnownKey, CanVote, QuorumMet, HasReject, Grows;
    match e.step
    case DoAsk(q, id) => AskGrows(db, e.world, q, id, e.now);
    case DoLapse => LapseGrows(db, e.now);
    case DoVote(r, u, approves) => VoteGrows(db, e.world, r, u, approves, e.now);
  }

  lemma AskIsNew(db: Db, w: World, q: ApprovalRequest, id: Id, now: Time)
    requires CreateApprovalError(db, w, q, id, now).None? && !KnownKey(db, q.owner, q.key)
    ensures q.policy in db.policies && q.command in db.commands && id !in db.approvals
  {
    hide KnownKey, RunError, Executable;
  }

  lemma NewRequestGrows(db: Db, id: Id, a: Approval)
    requires id !in db.approvals
    ensures Grows(db, db.(approvals := db.approvals[id := a]))
  {
    GrowsReflexive(db);
    hide PoliciesGrow, CommandsGrow, VotesGrow, PermitsGrow, ReceiptsGrow, ControlsGrow;
  }

  lemma AskGrows(db: Db, w: World, q: ApprovalRequest, id: Id, now: Time)
    ensures Grows(db, CreateApproval(db, w, q, id, now))
  {
    hide CreateApprovalError, KnownKey, MarkCommand, Grows;
    GrowsReflexive(db);
    if CreateApprovalError(db, w, q, id, now).None? && !KnownKey(db, q.owner, q.key) {
      AskIsNew(db, w, q, id, now);
      var asked := db.(approvals := db.approvals[id := NewApproval(db, q, now)]);
      assert Grows(db, asked) by { NewRequestGrows(db, id, NewApproval(db, q, now)); }
      MarkCommandGrows(asked, id);
      GrowsTransitive(db, asked, MarkCommand(asked, id));
    }
  }

  lemma LapseGrows(db: Db, now: Time)
    ensures Grows(db, LapseApprovals(db, now))
  {
    GrowsReflexive(db);
    hide PoliciesGrow, CommandsGrow, VotesGrow, PermitsGrow, ReceiptsGrow, ControlsGrow;
  }

  lemma AddVoteGrows(db: Db, request: Id, u: User, approves: bool)
    requires (request, u.subject) !in db.votes
    ensures Grows(db, AddVote(db, request, u, approves))
  {
    GrowsReflexive(db);
    hide PoliciesGrow, CommandsGrow, ApprovalsGrow, PermitsGrow, ReceiptsGrow, ControlsGrow;
  }

  lemma MarkCommandGrows(db: Db, request: Id)
    requires request in db.approvals
    ensures Grows(db, MarkCommand(db, request))
  {
    GrowsReflexive(db);
    hide PoliciesGrow, ApprovalsGrow, VotesGrow, PermitsGrow, ReceiptsGrow, ControlsGrow;
  }

  lemma StatusGrows(db: Db, request: Id, status: ApprovalStatus)
    requires request in db.approvals && db.approvals[request].status.Open?
    ensures Grows(db, db.(approvals := db.approvals[request := db.approvals[request].(status := status)]))
  {
    GrowsReflexive(db);
    hide PoliciesGrow, CommandsGrow, VotesGrow, PermitsGrow, ReceiptsGrow, ControlsGrow;
  }

  lemma DecideGrows(db: Db, request: Id)
    requires request in db.approvals && db.approvals[request].status.Open?
    ensures Grows(db, Decide(db, request))
  {
    hide QuorumMet, HasReject, Grows, MarkCommand;
    GrowsReflexive(db);
    var approved := db.(approvals := db.approvals[request := db.approvals[request].(status := Approved)]);
    StatusGrows(db, request, TurnedDown);
    StatusGrows(db, request, Approved);
    MarkCommandGrows(approved, request);
    GrowsTransitive(db, approved, MarkCommand(approved, request));
  }

  lemma VoteGrows(db: Db, w: World, request: Id, u: User, approves: bool, now: Time)
    ensures Grows(db, CastVote(db, w, request, u, approves, now))
  {
    hide CanVote, Decide, Grows;
    GrowsReflexive(db);
    if VoteError(db, w, request, u, approves, now).None? && (request, u.subject) !in db.votes {
      var voted := AddVote(db, request, u, approves);
      AddVoteGrows(db, request, u, approves);
      DecideGrows(voted, request);
      GrowsTransitive(db, voted, Decide(voted, request));
    }
  }

  lemma IssueGrows(db: Db, w: World, owner: Id, request: Id, ttl: int, id: Id, now: Time)
    ensures Grows(db, IssuePermit(db, w, owner, request, ttl, id, now))
  {
    GrowsReflexive(db);
    hide IntegrityError, RunError, Generations, HasPermit, HasRunningPermit, PoliciesGrow, CommandsGrow, ApprovalsGrow,
         VotesGrow, ReceiptsGrow, ControlsGrow;
  }

  lemma OutdateGrows(db: Db, now: Time)
    ensures Grows(db, OutdatePermits(db, now))
  {
    GrowsReflexive(db);
    hide PoliciesGrow, CommandsGrow, ApprovalsGrow, VotesGrow, ReceiptsGrow, ControlsGrow;
  }

  lemma ClaimReadGrows(db: Db, w: World, owner: Id, permit: Id, executor: Id, now: Time)
    ensures Grows(db, ClaimRead(db, w, owner, permit, executor, now))
  {
    GrowsReflexive(db);
    hide ClaimError, PoliciesGrow, CommandsGrow, ApprovalsGrow, VotesGrow, PermitsGrow, ReceiptsGrow, ControlsGrow;
  }

  lemma ClaimWriteGrows(db: Db, t: Ticket)
    ensures Grows(db, ClaimWrite(db, t))
  {
    GrowsReflexive(db);
    hide PoliciesGrow, CommandsGrow, ApprovalsGrow, VotesGrow, ReceiptsGrow, ControlsGrow;
  }

  lemma ReceiptGrows(db: Db, q: ReceiptRequest, id: Id)
    ensures Grows(db, RecordReceipt(db, q, id))
  {
    GrowsReflexive(db);
    hide KnownReceiptKey, PoliciesGrow, CommandsGrow, ApprovalsGrow, VotesGrow, ControlsGrow;
  }

  lemma PermitStepGrows(db: Db, e: Event)
    requires e.step.DoIssue? || e.step.DoOutdate? || e.step.DoClaimRead? || e.step.DoClaimWrite? || e.step.DoReceipt?
             || e.step.DoRevoke?
    ensures Grows(db, Apply(db, e))
  {
    hide IssuePermit, OutdatePermits, ClaimRead, ClaimWrite, RecordReceipt, RevokePermits, Grows;
    match e.step
    case DoIssue(owner, r, ttl, id) => IssueGrows(db, e.world, owner, r, ttl, id, e.now);
    case DoOutdate => OutdateGrows(db, e.now);
    case DoClaimRead(owner, p, executor) => ClaimReadGrows(db, e.world, owner, p, executor, e.now);
    case DoClaimWrite(t) => ClaimWriteGrows(db, t);
    case DoReceipt(q, id) => ReceiptGrows(db, q, id);
    case DoRevoke(owner, room, policy) => RevokeGrows(db, owner, room, policy);
  }

  lemma RevokeGrows(db: Db, owner: Option<Id>, room: Option<Id>, policy: Option<Id>)
    ensures Grows(db, RevokePermits(db, owner, room, policy))
  {
    GrowsReflexive(db);
    hide PoliciesGrow, CommandsGrow, ApprovalsGrow, VotesGrow, ReceiptsGrow, ControlsGrow;
  }

  lemma ControlGrows(db: Db, scope: Scope, byAdmin: bool, state: ControlState, until: Option<Time>)
    ensures Grows(db, SetControl(db, scope, byAdmin, state, until))
  {
    hide Revocable, Stoppable, SetControlError, Reach, Grows, RevokePermits;
    GrowsReflexive(db);
    var (owner, room, policy) := Reach(db, scope);
    var written := WriteControl(db, scope, state, until);
    var revoked := RevokePermits(written, owner, room, policy);
    WriteControlGrows(db, scope, state, until);
    RevokeGrows(written, owner, room, policy);
    StopLoopsGrows(revoked, state, owner, room, policy);
    GrowsTransitive(db, written, revoked);
    GrowsTransitive(db, revoked, StopLoops(revoked, state, owner, room, policy));
  }

  lemma WriteControlGrows(db: Db, scope: Scope, state: ControlState, until: Option<Time>)
    ensures Grows(db, WriteControl(db, scope, state, until))
  {
    GrowsReflexive(db);
    hide PoliciesGrow, CommandsGrow, ApprovalsGrow, VotesGrow, PermitsGrow, ReceiptsGrow;
  }

  lemma StopLoopsGrows(db: Db, state: ControlState, owner: Option<Id>, room: Option<Id>, policy: Option<Id>)
    ensures Grows(db, StopLoops(db, state, owner, room, policy))
  {
    GrowsReflexive(db);
    hide Stoppable, PoliciesGrow, CommandsGrow, ApprovalsGrow, VotesGrow, PermitsGrow, ReceiptsGrow, ControlsGrow;
  }

  lemma UpdatePolicyGrows(db: Db, owner: Id, id: Id, expectedVersion: int, change: PolicyChange)
    ensures Grows(db, UpdatePolicy(db, owner, id, expectedVersion, change))
  {
    hide RevokePermits, Grows;
    GrowsReflexive(db);
    if UpdatePolicyError(db, owner, id, expectedVersion, change).None? {
      var changed := db.(policies := db.policies[id := ChangedPolicy(db.policies[id], change)]);
      assert Grows(db, changed) by { PolicyChangeGrows(db, id, change); }
      RevokeGrows(changed, Some(owner), None, Some(id));
      GrowsTransitive(db, changed, RevokePermits(changed, Some(owner), None, Some(id)));
    }
  }

  lemma PolicyChangeGrows(db: Db, id: Id, change: PolicyChange)
    requires id in db.policies
    ensures Grows(db, db.(policies := db.policies[id := ChangedPolicy(db.policies[id], change)]))
  {
    GrowsReflexive(db);
    hide CommandsGrow, ApprovalsGrow, VotesGrow, PermitsGrow, ReceiptsGrow, ControlsGrow;
  }

  lemma ControlStepGrows(db: Db, e: Event)
    requires e.step.DoControl? || e.step.DoUpdatePolicy? || e.step.DoCreatePolicy? || e.step.DoOnLoops?
    ensures Grows(db, Apply(db, e))
  {
    GrowsReflexive(db);
    hide SetControl, UpdatePolicy, CommandsGrow, ApprovalsGrow, VotesGrow, PermitsGrow, ReceiptsGrow, ControlsGrow;
    match e.step
    case DoControl(scope, byAdmin, state, until) => ControlGrows(db, scope, byAdmin, state, until);
    case DoUpdatePolicy(owner, id, version, change) => UpdatePolicyGrows(db, owner, id, version, change);
    case DoCreatePolicy(_, _) =>
    case DoOnLoops(_) =>
  }

  /** Nothing that has been decided is undone by any step. */
  lemma StepGrows(db: Db, e: Event)
    ensures Grows(db, Apply(db, e))
  {
    hide Apply, Grows;
    match e.step
    case DoAsk(_, _) => ApprovalStepGrows(db, e);
    case DoLapse => ApprovalStepGrows(db, e);
    case DoVote(_, _, _) => ApprovalStepGrows(db, e);
    case DoIssue(_, _, _, _) => PermitStepGrows(db, e);
    case DoOutdate => PermitStepGrows(db, e);
    case DoClaimRead(_, _, _) => PermitStepGrows(db, e);
    case DoClaimWrite(_) => PermitStepGrows(db, e);
    case DoReceipt(_, _) => PermitStepGrows(db, e);
    case DoRevoke(_, _, _) => PermitStepGrows(db, e);
    case DoControl(_, _, _, _) => ControlStepGrows(db, e);
    case DoUpdatePolicy(_, _, _, _) => ControlStepGrows(db, e);
    case DoCreatePolicy(_, _) => ControlStepGrows(db, e);
    case DoOnLoops(_) => ControlStepGrows(db, e);
    case _ => CommandStepGrows(db, e);
  }

  lemma {:induction false} RunGrows(db: Db, events: seq<Event>)
    ensures Grows(db, Run(db, events))
    decreases events
  {
    hide Grows, Apply;
    if events == [] {
      GrowsReflexive(db);
    } else {
      StepGrows(db, events[0]);
      RunGrows(Apply(db, events[0]), events[1..]);
      GrowsTransitive(db, Apply(db, events[0]), Run(db, events));
    }
  }

  /* ---- The invariant ---- */

  /** Votes and status of a request agree. */
  ghost predicate TallyOk(votes: Votes, request: Id, a: Approval) {
    && (a.status.TurnedDown? <==> HasReject(votes, request))
    && (a.status.Approved? ==> QuorumMet(votes, request, a.rule))
    && (a.status.Open? || a.status.Lapsed? ==> !QuorumMet(votes, request, a.rule))
    && (a.rule.disallowProposer ==> (request, a.createdBy) !in votes)
  }

  /** The rule is the one that the rules have for the class of action. */
  predicate IsRuleFor(rules: Rules, c: ActionClass, rule: Rule) {
    && (c.Read? ==> rule == rules.read)
    && (c.Write? ==> rule == rules.write)
    && (c.Destructive? ==> rule == rules.destructive)
    && (c.Production? ==> rule == rules.production)
  }

  /** What is asked for is what the policy allows, under the policy's rule for it. */
  predicate Allows(p: Policy, a: Approval) {
    && a.class_ in p.classes && IsRuleFor(p.rules, a.class_, a.rule)
    && a.payload.kind.RunTool? && a.payload.kind.call.tool in p.tools
    && (a.payload.kind.call.ShellTool? ==>
          && !a.payload.kind.call.rawArguments && a.payload.kind.call.profile.Some?
          && a.payload.kind.call.profile.value in p.profiles)
  }

  /** A request stands for the command as it is, under a policy of the same owner and room. */
  predicate ApprovalLinked(db: Db, a: Approval) {
    && a.policy in db.policies && db.policies[a.policy].owner == a.owner && db.policies[a.policy].room == a.room
    && a.policyGeneration <= db.policies[a.policy].generation
    && (db.policies[a.policy].generation == a.policyGeneration ==> Allows(db.policies[a.policy], a))
    && a.command in db.commands && db.commands[a.command].owner == a.owner
    && db.commands[a.command].envelope == a.payload && a.payload.target == a.executor
  }

  ghost predicate ApprovalsOk(db: Db) {
    && (forall r :: r in db.approvals ==> ApprovalLinked(db, db.approvals[r]) && TallyOk(db.votes, r, db.approvals[r]))
    && forall k :: k in db.votes ==> k.0 in db.approvals
  }

  predicate UseOk(p: Permit) {
    && p.useCount == (if p.wasClaimed then 1 else 0)
    && (p.status.Issued? ==> !p.wasClaimed)
    && (p.status.Claimed? || p.status.Consumed? ==> p.wasClaimed)
  }

  /** A permit is for an approved request and carries generations that have been current. */
  ghost predicate PermitOk(db: Db, p: Permit) {
    && UseOk(p) && p.request in db.approvals && db.approvals[p.request].status.Approved?
    && var a := db.approvals[p.request];
       && p.owner == a.owner && p.policy == a.policy && p.command == a.command && p.executor == a.executor
       && p.policyGeneration == a.policyGeneration && p.expiresAt <= a.expiresAt
       && |p.generations| == 4
       && forall i :: 0 <= i < 4 ==> p.generations[i] <= Generations(db, a.owner, a.room, a.policy)[i]
  }

  ghost predicate PermitsOk(db: Db) {
    && (forall p :: p in db.permits ==> PermitOk(db, db.permits[p]))
    && forall p, q :: p in db.permits && q in db.permits && p != q ==> db.permits[p].request != db.permits[q].request
  }

  predicate ReceiptOk(db: Db, r: Receipt) {
    && r.permit in db.permits && db.permits[r.permit].status.Consumed?
    && var p := db.permits[r.permit];
       r.owner == p.owner && r.request == p.request && r.command == p.command && r.executor == p.executor
  }

  ghost predicate ReceiptsOk(db: Db) {
    && (forall r :: r in db.receipts ==> ReceiptOk(db, db.receipts[r]))
    && forall r, q :: r in db.receipts && q in db.receipts && r != q ==> db.receipts[r].permit != db.receipts[q].permit
  }

  ghost predicate SucceededReceipt(db: Db, r: Id, command: Id) {
    && r in db.receipts && db.receipts[r].command == command && db.receipts[r].outcome.Succeeded?
    && command in db.commands && db.receipts[r].executor == db.commands[command].envelope.target
  }

  ghost predicate FailedReceipt(db: Db, r: Id, command: Id) {
    && r in db.receipts && db.receipts[r].command == command && !db.receipts[r].outcome.Succeeded?
    && command in db.commands && db.receipts[r].executor == db.commands[command].envelope.target
  }

  ghost predicate CommandOk(db: Db, command: Id)
    requires command in db.commands
  {
    var c := db.commands[command];
    && (c.approvedBy.Some? ==> c.approvedBy.value in db.approvals && db.approvals[c.approvedBy.value].status.Approved?
                               && db.approvals[c.approvedBy.value].command == command)
    && (c.requiresApproval && (c.status.Accepted? || c.status.Completed? || c.status.Failed?) ==> c.approvedBy.Some?)
    && (IsPrivileged(c) && c.status.Completed? ==> exists r :: SucceededReceipt(db, r, command))
    && (IsPrivileged(c) && c.status.Failed? ==> exists r :: FailedReceipt(db, r, command))
  }

  ghost predicate CommandsOk(db: Db) {
    forall c :: c in db.commands ==> CommandOk(db, c)
  }

  ghost predicate InOrder(db: Db) {
    ApprovalsOk(db) && PermitsOk(db) && ReceiptsOk(db) && CommandsOk(db)
  }

  /* ---- Steps that leave a table alone keep what is said of it ---- */

  lemma ApprovalsKept(x: Db, y: Db)
    requires ApprovalsOk(x) && Grows(x, y) && y.approvals == x.approvals && y.votes == x.votes
    ensures ApprovalsOk(y)
  {
    hide TallyOk, PermitAdvances, GenerationOf;
    forall r | r in y.approvals ensures ApprovalLinked(y, y.approvals[r]) {
      assert ApprovalLinked(x, x.approvals[r]);
    }
  }

  lemma PermitStays(x: Db, y: Db, p: Permit, q: Permit)
    requires PermitOk(x, p) && Grows(x, y) && PermitAdvances(p, q) && UseOk(q)
    ensures PermitOk(y, q)
  {
    var a := x.approvals[p.request];
    forall i | 0 <= i < 4 ensures q.generations[i] <= Generations(y, a.owner, a.room, a.policy)[i] {
      assert Generations(x, a.owner, a.room, a.policy)[i] <= Generations(y, a.owner, a.room, a.policy)[i];
    }
  }

  lemma PermitsKept(x: Db, y: Db)
    requires PermitsOk(x) && Grows(x, y) && y.permits.Keys == x.permits.Keys
    requires forall p :: p in y.permits ==> UseOk(y.permits[p])
    ensures PermitsOk(y)
  {
    hide PermitOk, GenerationOf;
    forall p | p in y.permits ensures PermitOk(y, y.permits[p]) {
      assert PermitAdvances(x.permits[p], y.permits[p]) && PermitOk(x, x.permits[p]);
      PermitStays(x, y, x.permits[p], y.permits[p]);
    }
    forall p, q | p in y.permits && q in y.permits && p != q ensures y.permits[p].request != y.permits[q].request {
      assert PermitAdvances(x.permits[p], y.permits[p]) && PermitAdvances(x.permits[q], y.permits[q]);
    }
  }

  lemma ReceiptsKept(x: Db, y: Db)
    requires ReceiptsOk(x) && Grows(x, y) && y.receipts == x.receipts
    ensures ReceiptsOk(y)
  {
    hide GenerationOf;
    forall r | r in y.receipts ensures ReceiptOk(y, y.receipts[r]) {
      assert ReceiptOk(x, x.receipts[r]);
      assert PermitAdvances(x.permits[x.receipts[r].permit], y.permits[x.receipts[r].permit]);
    }
  }

  lemma CommandsKept(x: Db, y: Db)
    requires CommandsOk(x) && Grows(x, y) && y.commands == x.commands
    ensures CommandsOk(y)
  {
    hide GenerationOf, PermitAdvances;
    forall c | c in y.commands ensures CommandOk(y, c) {
      CommandStays(x, y, c);
    }
  }

  lemma CommandStays(x: Db, y: Db, c: Id)
    requires c in x.commands && CommandOk(x, c) && Grows(x, y) && c in y.commands && y.commands[c] == x.commands[c]
    ensures CommandOk(y, c)
  {
    hide GenerationOf, PermitAdvances;
    if r :| SucceededReceipt(x, r, c) {
      assert SucceededReceipt(y, r, c);
    }
    if r :| FailedReceipt(x, r, c) {
      assert FailedReceipt(y, r, c);
    }
  }

  /** All four parts, for a step that changes neither approvals, votes, receipts nor commands. */
  lemma InvKept(x: Db, y: Db)
    requires InOrder(x) && Grows(x, y)
    requires y.approvals == x.approvals && y.votes == x.votes && y.receipts == x.receipts && y.commands == x.commands
    requires y.permits.Keys == x.permits.Keys && forall p :: p in y.permits ==> UseOk(y.permits[p])
    ensures InOrder(y)
  {
    hide ApprovalsOk, PermitsOk, ReceiptsOk, CommandsOk, Grows;
    ApprovalsKept(x, y);
    PermitsKept(x, y);
    ReceiptsKept(x, y);
    CommandsKept(x, y);
  }

  lemma PermitsUsedRight(db: Db)
    requires PermitsOk(db)
    ensures forall p :: p in db.permits ==> UseOk(db.permits[p])
  {
    forall p | p in db.permits ensures UseOk(db.permits[p]) {
      assert PermitOk(db, db.permits[p]);
    }
  }

  /* ---- Steps on commands ---- */

  lemma OtherCommandsStay(x: Db, y: Db, c: Id)
    requires CommandsOk(x) && Grows(x, y) && c in y.commands && CommandOk(y, c)
    requires forall d :: d in y.commands && d != c ==> d in x.commands && y.commands[d] == x.commands[d]
    ensures CommandsOk(y)
  {
    hide CommandOk, Grows;
    forall d | d in y.commands ensures CommandOk(y, d) {
      if d != c {
        CommandStays(x, y, d);
      }
    }
  }

  /** Rows of other tables are as before, and the one changed command is in order. */
  lemma CommandChangeKeepsOrder(x: Db, y: Db, c: Id)
    requires InOrder(x) && Grows(x, y) && y == x.(commands := y.commands) && c in y.commands && CommandOk(y, c)
    requires forall d :: d in y.commands && d != c ==> d in x.commands && y.commands[d] == x.commands[d]
    ensures InOrder(y)
  {
    hide ApprovalsOk, PermitsOk, ReceiptsOk, CommandsOk, CommandOk, Grows;
    ApprovalsKept(x, y);
    PermitsUsedRight(x);
    PermitsKept(x, y);
    ReceiptsKept(x, y);
    OtherCommandsStay(x, y, c);
  }

  lemma WithStatusKeepsOrder(db: Db, c: Id, status: CommandStatus)
    requires InOrder(db) && c in db.commands && !IsTerminal(db.commands[c].status)
             && CommandOk(WithStatus(db, c, status), c)
    ensures InOrder(WithStatus(db, c, status))
  {
    hide InOrder, CommandOk, Grows;
    WithStatusGrows(db, c, status);
    CommandChangeKeepsOrder(db, WithStatus(db, c, status), c);
  }

  /** A status that promises nothing. */
  lemma PlainStatusKeepsOrder(db: Db, c: Id, status: CommandStatus)
    requires InOrder(db) && c in db.commands && !IsTerminal(db.commands[c].status)
    requires !status.Accepted? && !status.Completed? && !status.Failed?
    ensures InOrder(WithStatus(db, c, status))
  {
    hide ApprovalsOk, PermitsOk, ReceiptsOk, SucceededReceipt, FailedReceipt;
    assert CommandOk(db, c);
    WithStatusKeepsOrder(db, c, status);
  }

  lemma IssueCommandKeepsOrder(db: Db, owner: Id, envelope: Envelope, requiresApproval: bool, id: Id)
    requires InOrder(db)
    ensures InOrder(IssueCommand(db, owner, envelope, requiresApproval, id))
  {
    hide InOrder, SucceededReceipt, FailedReceipt, Grows;
    var y := IssueCommand(db, owner, envelope, requiresApproval, id);
    IssueCommandGrows(db, owner, envelope, requiresApproval, id);
    if id !in db.commands {
      CommandChangeKeepsOrder(db, y, id);
    }
  }

  lemma AcceptedCommandOk(db: Db, owner: Id, agent: Id, command: Id)
    requires InOrder(db) && AcceptError(db, owner, agent, command).None?
    ensures CommandOk(WithStatus(db, command, Accepted), command)
  {
    hide ApprovalsOk, PermitsOk, ReceiptsOk, SucceededReceipt, FailedReceipt;
    assert CommandOk(db, command);
  }

  lemma CompletedCommandOk(db: Db, owner: Id, agent: Id, command: Id, completed: bool)
    requires InOrder(db) && CompleteError(db, owner, agent, command, completed).None?
    ensures command in db.commands && !IsTerminal(db.commands[command].status)
    ensures CommandOk(WithStatus(db, command, if completed then Completed else Failed), command)
  {
    hide ApprovalsOk, PermitsOk, ReceiptsOk;
    var after := WithStatus(db, command, if completed then Completed else Failed);
    assert CommandOk(db, command);
    if IsPrivileged(db.commands[command]) {
      var found := ReceiptsFor(db, owner, command, agent);
      if completed {
        var r :| r in found && db.receipts[r].outcome.Succeeded?;
        assert SucceededReceipt(after, r, command);
      } else {
        var r :| r in found;
        assert FailedReceipt(after, r, command);
      }
    }
  }

  lemma CommandStepKeepsOrder(db: Db, e: Event)
    requires InOrder(db)
    requires e.step.DoIssueCommand? || e.step.DoDeliver? || e.step.DoAcknowledge? || e.step.DoAccept?
             || e.step.DoReject?
             || e.step.DoCancel? || e.step.DoComplete?
    ensures InOrder(Apply(db, e))
  {
    hide InOrder, CompleteError, SucceededReceipt, FailedReceipt, CommandOk;
    var after := Apply(db, e);
    match e.step
    case DoIssueCommand(owner, envelope, requires_, id) => IssueCommandKeepsOrder(db, owner, envelope, requires_, id);
    case DoDeliver(c) =>
      if c in db.commands && !IsTerminal(db.commands[c].status) {
        PlainStatusKeepsOrder(db, c, Expired);
        PlainStatusKeepsOrder(db, c, Delivered);
      }
    case DoAcknowledge(_, _, c) => if after != db { PlainStatusKeepsOrder(db, c, Acknowledged); }
    case DoReject(_, _, c) => if after != db { PlainStatusKeepsOrder(db, c, CommandStatus.Rejected); }
    case DoCancel(_, _, c) => if after != db { PlainStatusKeepsOrder(db, c, Cancelled); }
    case DoAccept(owner, agent, c) =>
      if AcceptError(db, owner, agent, c).None? {
        AcceptedCommandOk(db, owner, agent, c);
        WithStatusKeepsOrder(db, c, Accepted);
      }
    case DoComplete(owner, agent, c, completed) =>
      if CompleteError(db, owner, agent, c, completed).None? {
        CompletedCommandOk(db, owner, agent, c, completed);
        WithStatusKeepsOrder(db, c, if completed then Completed else Failed);
      }
  }

  /* ---- Steps on requests and votes ---- */

  /** The votes on one request are not touched by a vote on another. */
  lemma OtherTally(votes: Votes, k: (Id, Id), v: Vote, request: Id)
    requires k !in votes && k.0 != request
    ensures Approvers(votes[k := v], request) == Approvers(votes, request)
    ensures HasReject(votes[k := v], request) == HasReject(votes, request)
    ensures HasAdminApproval(votes[k := v], request) == HasAdminApproval(votes, request)
  {
    var after := votes[k := v];
    assert forall j :: j in after && j.0 == request <==> j in votes && j.0 == request;
    forall j | j in votes && j.0 == request ensures after[j] == votes[j] {
    }
    if HasReject(votes, request) {
      var j :| j in votes && j.0 == request && !votes[j].approves;
      assert j in after && !after[j].approves;
    }
    if HasAdminApproval(votes, request) {
      var j :| j in votes && j.0 == request && votes[j].approves && votes[j].byAdmin;
      assert j in after && after[j].approves && after[j].byAdmin;
    }
  }

  lemma NoVotesYet(votes: Votes, request: Id)
    requires forall k :: k in votes ==> k.0 != request
    ensures Approvers(votes, request) == {} && !HasReject(votes, request) && !HasAdminApproval(votes, request)
  {
  }

  /** What asking changes: one new request, and the approver of its command if it needs no vote. */
  lemma AskTouches(db: Db, w: World, q: ApprovalRequest, id: Id, now: Time)
    requires CreateApprovalError(db, w, q, id, now).None? && !KnownKey(db, q.owner, q.key)
    ensures var y := CreateApproval(db, w, q, id, now);
            && id !in db.approvals && q.command in db.commands && q.policy in db.policies
            && y == db.(approvals := db.approvals[id := NewApproval(db, q, now)], commands := y.commands)
            && y.commands == (if NewApproval(db, q, now).status.Approved?
                              then db.commands[q.command := db.commands[q.command].(approvedBy := Some(id))]
                              else db.commands)
            && db.commands[q.command].envelope.target == q.executor && db.commands[q.command].owner == q.owner
            && db.policies[q.policy].owner == q.owner
  {
    hide KnownKey, RunError, Executable;
  }

  /**
   * A new request is for the command as it is, in the policy's room, under the
   * policy's rule for the class of action, and runs out when its time to live is over.
   */
  lemma AskedAsRequested(db: Db, w: World, q: ApprovalRequest, id: Id, now: Time)
    requires CreateApprovalError(db, w, q, id, now).None? && !KnownKey(db, q.owner, q.key)
    ensures var y := CreateApproval(db, w, q, id, now);
            && id !in db.approvals && y.approvals.Keys == db.approvals.Keys + {id}
            && q.policy in db.policies && q.command in db.commands
            && var p, a := db.policies[q.policy], y.approvals[id];
               && Allows(p, a) && a.policyGeneration == p.generation
               && a.owner == q.owner == p.owner && a.room == p.room && a.policy == q.policy && a.class_ == q.class_
               && a.command == q.command && a.executor == q.executor && a.payload == db.commands[q.command].envelope
               && a.createdBy == q.actor && a.key == q.key && a.expiresAt == now + q.ttl && 30 <= q.ttl <= 86400
               && (a.status.Approved? <==> a.rule.quorum == 0 && !a.rule.requireAdmin)
               && (a.status.Open? <==> !a.status.Approved?)
  {
    hide KnownKey, RunError;
  }

  lemma AskKeepsOrder(db: Db, w: World, q: ApprovalRequest, id: Id, now: Time)
    requires InOrder(db)
    ensures InOrder(CreateApproval(db, w, q, id, now))
  {
    hide ApprovalsOk, PermitsOk, ReceiptsOk, CommandsOk, Grows, KnownKey, AskError;
    var y := CreateApproval(db, w, q, id, now);
    AskGrows(db, w, q, id, now);
    if CreateApprovalError(db, w, q, id, now).None? && !KnownKey(db, q.owner, q.key) {
      AskTouches(db, w, q, id, now);
      AskKeepsApprovals(db, w, q, id, now);
      PermitsUsedRight(db);
      PermitsKept(db, y);
      ReceiptsKept(db, y);
      AskKeepsCommands(db, w, q, id, now);
    }
  }

  lemma NewTallyOk(db: Db, q: ApprovalRequest, id: Id, now: Time)
    requires ApprovalsOk(db) && id !in db.approvals && q.policy in db.policies && q.command in db.commands
    ensures TallyOk(db.votes, id, NewApproval(db, q, now))
  {
    NoVotesYet(db.votes, id);
  }

  lemma AskKeepsApprovals(db: Db, w: World, q: ApprovalRequest, id: Id, now: Time)
    requires ApprovalsOk(db) && CreateApprovalError(db, w, q, id, now).None? && !KnownKey(db, q.owner, q.key)
    ensures ApprovalsOk(CreateApproval(db, w, q, id, now))
  {
    hide KnownKey, AskError, CreateApproval, QuorumMet, HasReject, Allows;
    var y := CreateApproval(db, w, q, id, now);
    AskTouches(db, w, q, id, now);
    AskedAsRequested(db, w, q, id, now);
    NewTallyOk(db, q, id, now);
    forall r | r in y.approvals ensures ApprovalLinked(y, y.approvals[r]) && TallyOk(y.votes, r, y.approvals[r]) {
      if r != id {
        assert ApprovalLinked(db, db.approvals[r]) && TallyOk(db.votes, r, db.approvals[r]);
      }
    }
  }

  lemma AskKeepsCommands(db: Db, w: World, q: ApprovalRequest, id: Id, now: Time)
    requires CommandsOk(db) && CreateApprovalError(db, w, q, id, now).None? && !KnownKey(db, q.owner, q.key)
    ensures CommandsOk(CreateApproval(db, w, q, id, now))
  {
    hide KnownKey, AskError, Grows, CommandOk, CreateApproval;
    var y := CreateApproval(db, w, q, id, now);
    AskGrows(db, w, q, id, now);
    AskTouches(db, w, q, id, now);
    assert CommandOk(db, q.command);
    assert CommandOk(y, q.command) by { MarkedCommandOk(db, y, q.command, id); }
    OtherCommandsStay(db, y, q.command);
  }

  /** A command stays in order when its approver is set to an approved request for it. */
  lemma MarkedCommandOk(x: Db, y: Db, c: Id, request: Id)
    requires c in x.commands && CommandOk(x, c) && Grows(x, y) && c in y.commands
    requires y.commands[c] == x.commands[c] || y.commands[c] == x.commands[c].(approvedBy := Some(request))
    requires y.commands[c] != x.commands[c] ==>
             request in y.approvals && y.approvals[request].status.Approved? && y.approvals[request].command == c
    ensures CommandOk(y, c)
  {
    hide PermitAdvances, GenerationOf;
    if r :| SucceededReceipt(x, r, c) {
      assert SucceededReceipt(y, r, c);
    }
    if r :| FailedReceipt(x, r, c) {
      assert FailedReceipt(y, r, c);
    }
  }

  lemma LapseKeepsOrder(db: Db, now: Time)
    requires InOrder(db)
    ensures InOrder(LapseApprovals(db, now))
  {
    hide PermitsOk, ReceiptsOk, CommandsOk, Grows, QuorumMet, HasReject;
    var y := LapseApprovals(db, now);
    LapseGrows(db, now);
    forall r | r in y.approvals ensures ApprovalLinked(y, y.approvals[r]) && TallyOk(y.votes, r, y.approvals[r]) {
      assert ApprovalLinked(db, db.approvals[r]) && TallyOk(db.votes, r, db.approvals[r]);
    }
    PermitsUsedRight(db);
    PermitsKept(db, y);
    ReceiptsKept(db, y);
    CommandsKept(db, y);
  }

  lemma MarkTouches(db: Db, request: Id)
    requires request in db.approvals && db.approvals[request].status.Approved?
    ensures var y, c := MarkCommand(db, request), db.approvals[request].command;
            && y == db.(commands := y.commands)
            && (y.commands == db.commands
                || (c in db.commands && y.commands == db.commands[c := db.commands[c].(approvedBy := Some(request))]))
  {
  }

  lemma DecideTouches(db: Db, request: Id)
    requires request in db.approvals && db.approvals[request].status.Open?
    ensures var y, a := Decide(db, request), db.approvals[request];
            && request in y.approvals
            && y ==
               db.(approvals := db.approvals[request := a.(status := y.approvals[request].status)],
                   commands := y.commands)
            && (|| y.commands == db.commands
                || (&& a.command in db.commands && y.approvals[request].status.Approved?
                    && y.commands == db.commands[a.command := db.commands[a.command].(approvedBy := Some(request))]))
            && y.approvals[request].status ==
               (if HasReject(db.votes, request) then TurnedDown
                else if QuorumMet(db.votes, request, a.rule) then Approved else Open)
  {
    hide QuorumMet, HasReject, MarkCommand;
    if !HasReject(db.votes, request) && QuorumMet(db.votes, request, db.approvals[request].rule) {
      MarkTouches(db.(approvals := db.approvals[request := db.approvals[request].(status := Approved)]), request);
    }
  }

  /** What a vote changes: itself, the status of the request, and the approver of its command. */
  lemma VoteTouches(db: Db, w: World, request: Id, u: User, approves: bool, now: Time)
    requires VoteError(db, w, request, u, approves, now).None? && (request, u.subject) !in db.votes
    ensures request in db.approvals
    ensures var y, a := CastVote(db, w, request, u, approves, now), db.approvals[request];
            && request in db.approvals && request in y.approvals
            && y ==
               db.(approvals := db.approvals[request := a.(status := y.approvals[request].status)],
                   commands := y.commands,
                        votes := db.votes[(request, u.subject) := Vote(approves, u.isAdmin)])
            && (|| y.commands == db.commands
                || (&& a.command in db.commands && y.approvals[request].status.Approved?
                    && y.commands == db.commands[a.command := db.commands[a.command].(approvedBy := Some(request))]))
            && y.approvals[request].status ==
               (if HasReject(y.votes, request) then TurnedDown
                else if QuorumMet(y.votes, request, a.rule) then Approved else Open)
            && !(a.rule.disallowProposer && u.subject == a.createdBy) && a.status.Open?
  {
    hide CanVote, Decide, QuorumMet, HasReject;
    DecideTouches(AddVote(db, request, u, approves), request);
  }

  lemma VoteKeepsOrder(db: Db, w: World, request: Id, u: User, approves: bool, now: Time)
    requires InOrder(db)
    ensures InOrder(CastVote(db, w, request, u, approves, now))
  {
    hide ApprovalsOk, PermitsOk, ReceiptsOk, CommandsOk, Grows, VoteError, QuorumMet, HasReject, Decide;
    var y := CastVote(db, w, request, u, approves, now);
    VoteGrows(db, w, request, u, approves, now);
    if VoteError(db, w, request, u, approves, now).None? && (request, u.subject) !in db.votes {
      VoteTouches(db, w, request, u, approves, now);
      VoteKeepsApprovals(db, w, request, u, approves, now);
      PermitsUsedRight(db);
      PermitsKept(db, y);
      ReceiptsKept(db, y);
      VoteKeepsCommands(db, w, request, u, approves, now);
    }
  }

  lemma CommandsGrown(db: Db, w: World, request: Id, u: User, approves: bool, now: Time)
    ensures CommandsGrow(db.commands, CastVote(db, w, request, u, approves, now).commands)
  {
    hide CastVote;
    VoteGrows(db, w, request, u, approves, now);
  }

  lemma ApprovalIsNoReject(votes: Votes, request: Id, voter: Id, v: Vote)
    requires v.approves && (request, voter) !in votes
    ensures HasReject(votes[(request, voter) := v], request) == HasReject(votes, request)
  {
    var after := votes[(request, voter) := v];
    if k :| k in votes && k.0 == request && !votes[k].approves {
      assert k in after && !after[k].approves;
    }
  }

  lemma VoteKeepsApprovals(db: Db, w: World, request: Id, u: User, approves: bool, now: Time)
    requires ApprovalsOk(db) && VoteError(db, w, request, u, approves, now).None? && (request, u.subject) !in db.votes
    ensures ApprovalsOk(CastVote(db, w, request, u, approves, now))
  {
    hide VoteError, CastVote, HasReject, QuorumMet, Approvers, HasAdminApproval;
    var y := CastVote(db, w, request, u, approves, now);
    var v := Vote(approves, u.isAdmin);
    VoteTouches(db, w, request, u, approves, now);
    CommandsGrown(db, w, request, u, approves, now);
    forall r | r in y.approvals ensures ApprovalLinked(y, y.approvals[r]) && TallyOk(y.votes, r, y.approvals[r]) {
      assert ApprovalLinked(db, db.approvals[r]) && TallyOk(db.votes, r, db.approvals[r]);
      if r != request {
        OtherTally(db.votes, (request, u.subject), v, r);
        SameQuorum(db.votes, y.votes, r, db.approvals[r].rule);
      } else if approves {
        ApprovalIsNoReject(db.votes, request, u.subject, v);
      }
    }
  }

  lemma SameQuorum(x: Votes, y: Votes, r: Id, rule: Rule)
    requires Approvers(x, r) == Approvers(y, r) && HasAdminApproval(x, r) == HasAdminApproval(y, r)
    ensures QuorumMet(x, r, rule) == QuorumMet(y, r, rule)
  {
  }

  lemma VoteKeepsCommands(db: Db, w: World, request: Id, u: User, approves: bool, now: Time)
    requires CommandsOk(db) && ApprovalsOk(db) && VoteError(db, w, request, u, approves, now).None?
             && (request, u.subject) !in db.votes
    ensures CommandsOk(CastVote(db, w, request, u, approves, now))
  {
    hide VoteError, CastVote, QuorumMet, HasReject, Grows, CommandOk, TallyOk;
    var y := CastVote(db, w, request, u, approves, now);
    VoteGrows(db, w, request, u, approves, now);
    VoteTouches(db, w, request, u, approves, now);
    var c := db.approvals[request].command;
    assert ApprovalLinked(db, db.approvals[request]);
    assert CommandOk(y, c) by {
      assert CommandOk(db, c);
      MarkedCommandOk(db, y, c, request);
    }
    OtherCommandsStay(db, y, c);
  }

  /* ---- Steps on permits and receipts ---- */

  lemma IssueKeepsOrder(db: Db, w: World, owner: Id, request: Id, ttl: int, id: Id, now: Time)
    requires InOrder(db)
    ensures InOrder(IssuePermit(db, w, owner, request, ttl, id, now))
  {
    hide ApprovalsOk, ReceiptsOk, CommandsOk, Grows, RunError, PermitOk, HasRunningPermit;
    var y := IssuePermit(db, w, owner, request, ttl, id, now);
    IssueGrows(db, w, owner, request, ttl, id, now);
    if y != db {
      ApprovalsKept(db, y);
      ReceiptsKept(db, y);
      CommandsKept(db, y);
      assert PermitOk(y, y.permits[id]) by { NewPermitOk(db, w, owner, request, ttl, id, now); }
      forall p | p in db.permits ensures PermitOk(y, y.permits[p]) && db.permits[p].request != request {
        assert PermitOk(db, db.permits[p]);
        PermitStays(db, y, db.permits[p], y.permits[p]) by { UseIsOk(db, db.permits[p]); }
      }
    }
  }

  lemma UseIsOk(db: Db, p: Permit)
    requires PermitOk(db, p)
    ensures UseOk(p) && PermitAdvances(p, p)
  {
  }

  lemma NewPermitOk(db: Db, w: World, owner: Id, request: Id, ttl: int, id: Id, now: Time)
    requires IssueError(db, w, owner, request, ttl, id, now).None? && !HasPermit(db, request)
    ensures var y := IssuePermit(db, w, owner, request, ttl, id, now); id in y.permits && PermitOk(y, y.permits[id])
  {
    hide RunError, HasPermit;
  }

  lemma ReceiptKeepsOrder(db: Db, q: ReceiptRequest, id: Id)
    requires InOrder(db)
    ensures InOrder(RecordReceipt(db, q, id))
  {
    hide ApprovalsOk, CommandsOk, Grows, KnownReceiptKey, PermitOk;
    var y := RecordReceipt(db, q, id);
    ReceiptGrows(db, q, id);
    if y != db {
      PermitsUsedRight(db);
      ApprovalsKept(db, y);
      PermitsKept(db, y);
      CommandsKept(db, y);
      forall r | r in db.receipts ensures ReceiptOk(y, y.receipts[r]) && db.receipts[r].permit != q.permit {
        assert ReceiptOk(db, db.receipts[r]);
      }
    }
  }

  lemma UsesKept(x: Db, y: Db)
    requires InOrder(x) && Grows(x, y) && LeavesUses(x, y)
    ensures InOrder(y)
  {
    hide ApprovalsOk, PermitsOk, ReceiptsOk, CommandsOk, Grows, UseOk;
    PermitsUsedRight(x);
    InvKept(x, y);
  }

  lemma OutdateLeavesUses(db: Db, now: Time)
    ensures LeavesUses(db, OutdatePermits(db, now))
  {
  }

  lemma ClaimedUse(p: Permit)
    requires p.status.Issued? && UseOk(p)
    ensures UseOk(MarkClaimed(p))
  {
  }

  lemma ClaimLeavesUses(db: Db, t: Ticket)
    ensures LeavesUses(db, ClaimWrite(db, t))
  {
    hide UseOk, MarkClaimed, Claimable;
    if t in db.inFlight && Claimable(db, t) {
      assert t.permit in db.permits && db.permits[t.permit].status.Issued? by { ClaimableMeans(db, t); }
      if UseOk(db.permits[t.permit]) {
        ClaimedUse(db.permits[t.permit]);
      }
    }
  }

  lemma ClaimableMeans(db: Db, t: Ticket)
    requires Claimable(db, t)
    ensures t.permit in db.permits && db.permits[t.permit].status.Issued? && db.permits[t.permit].token == t.token
  {
  }

  lemma OutdateKeepsOrder(db: Db, now: Time)
    requires InOrder(db)
    ensures InOrder(OutdatePermits(db, now))
  {
    hide InOrder, Grows, LeavesUses, OutdatePermits;
    OutdateGrows(db, now);
    OutdateLeavesUses(db, now);
    UsesKept(db, OutdatePermits(db, now));
  }

  lemma RevokeKeepsOrder(db: Db, owner: Option<Id>, room: Option<Id>, policy: Option<Id>)
    requires InOrder(db)
    ensures InOrder(RevokePermits(db, owner, room, policy))
  {
    hide InOrder, Grows, LeavesUses, RevokePermits;
    RevokeGrows(db, owner, room, policy);
    RevokeLeavesUses(db, owner, room, policy);
    UsesKept(db, RevokePermits(db, owner, room, policy));
  }

  lemma ClaimKeepsOrder(db: Db, t: Ticket)
    requires InOrder(db)
    ensures InOrder(ClaimWrite(db, t))
  {
    hide InOrder, Grows, LeavesUses, ClaimWrite;
    ClaimWriteGrows(db, t);
    ClaimLeavesUses(db, t);
    UsesKept(db, ClaimWrite(db, t));
  }

  lemma ClaimReadKeepsOrder(db: Db, w: World, owner: Id, permit: Id, executor: Id, now: Time)
    requires InOrder(db)
    ensures InOrder(ClaimRead(db, w, owner, permit, executor, now))
  {
    hide InOrder, Grows, LeavesUses, ClaimRead;
    ClaimReadGrows(db, w, owner, permit, executor, now);
    ClaimReadLeavesUses(db, w, owner, permit, executor, now);
    UsesKept(db, ClaimRead(db, w, owner, permit, executor, now));
  }

  lemma SameRowsLeaveUses(x: Db, y: Db)
    requires y.approvals == x.approvals && y.votes == x.votes && y.receipts == x.receipts && y.commands == x.commands
             && y.permits == x.permits
    ensures LeavesUses(x, y)
  {
    hide UseOk;
  }

  lemma ClaimReadLeavesUses(db: Db, w: World, owner: Id, permit: Id, executor: Id, now: Time)
    ensures LeavesUses(db, ClaimRead(db, w, owner, permit, executor, now))
  {
    hide ClaimError, LeavesUses;
    var y := ClaimRead(db, w, owner, permit, executor, now);
    assert y == db.(inFlight := y.inFlight);
    SameRowsLeaveUses(db, y);
  }

  lemma PermitStepKeepsOrder(db: Db, e: Event)
    requires InOrder(db)
    requires e.step.DoIssue? || e.step.DoOutdate? || e.step.DoClaimRead? || e.step.DoClaimWrite? || e.step.DoReceipt?
             || e.step.DoRevoke?
    ensures InOrder(Apply(db, e))
  {
    hide InOrder, IssuePermit, RecordReceipt, ClaimRead, OutdatePermits, RevokePermits, ClaimWrite;
    match e.step
    case DoIssue(owner, r, ttl, id) => IssueKeepsOrder(db, e.world, owner, r, ttl, id, e.now);
    case DoReceipt(q, id) => ReceiptKeepsOrder(db, q, id);
    case DoOutdate => OutdateKeepsOrder(db, e.now);
    case DoClaimRead(owner, p, executor) => ClaimReadKeepsOrder(db, e.world, owner, p, executor, e.now);
    case DoClaimWrite(t) => ClaimKeepsOrder(db, t);
    case DoRevoke(owner, room, policy) => RevokeKeepsOrder(db, owner, room, policy);
  }

  /** Neither controls nor policies touch requests, votes, receipts or commands, nor the uses of a permit. */
  ghost predicate LeavesUses(x: Db, y: Db) {
    && y.approvals == x.approvals && y.votes == x.votes && y.receipts == x.receipts && y.commands == x.commands
    && y.permits.Keys == x.permits.Keys
    && forall p :: p in x.permits ==> (UseOk(x.permits[p]) ==> UseOk(y.permits[p]))
  }

  lemma RevokeLeavesUses(db: Db, owner: Option<Id>, room: Option<Id>, policy: Option<Id>)
    ensures LeavesUses(db, RevokePermits(db, owner, room, policy))
  {
    hide Revocable;
  }

  lemma ControlLeavesUses(db: Db, scope: Scope, byAdmin: bool, state: ControlState, until: Option<Time>)
    ensures LeavesUses(db, SetControl(db, scope, byAdmin, state, until))
  {
    hide UseOk, SetControlError, Reach, RevokePermits;
    var (owner, room, policy) := Reach(db, scope);
    RevokeLeavesUses(WriteControl(db, scope, state, until), owner, room, policy);
  }

  lemma UpdateLeavesUses(db: Db, owner: Id, id: Id, version: int, change: PolicyChange)
    ensures LeavesUses(db, UpdatePolicy(db, owner, id, version, change))
  {
    hide UseOk, RevokePermits;
    if UpdatePolicyError(db, owner, id, version, change).None? {
      RevokeLeavesUses(db.(policies := db.policies[id := ChangedPolicy(db.policies[id], change)]), Some(owner), None,
                       Some(id));
    }
  }

  lemma ControlKeepsOrder(db: Db, scope: Scope, byAdmin: bool, state: ControlState, until: Option<Time>)
    requires InOrder(db)
    ensures InOrder(SetControl(db, scope, byAdmin, state, until))
  {
    hide InOrder, Grows, SetControl, LeavesUses;
    ControlGrows(db, scope, byAdmin, state, until);
    ControlLeavesUses(db, scope, byAdmin, state, until);
    UsesKept(db, SetControl(db, scope, byAdmin, state, until));
  }

  lemma UpdateKeepsOrder(db: Db, owner: Id, id: Id, version: int, change: PolicyChange)
    requires InOrder(db)
    ensures InOrder(UpdatePolicy(db, owner, id, version, change))
  {
    hide InOrder, Grows, UpdatePolicy, LeavesUses;
    UpdatePolicyGrows(db, owner, id, version, change);
    UpdateLeavesUses(db, owner, id, version, change);
    UsesKept(db, UpdatePolicy(db, owner, id, version, change));
  }

  lemma PlainStepKeepsOrder(db: Db, e: Event)
    requires InOrder(db) && (e.step.DoCreatePolicy? || e.step.DoOnLoops?)
    ensures InOrder(Apply(db, e))
  {
    hide InOrder, Grows, LeavesUses, Apply;
    ControlStepGrows(db, e);
    PlainStepLeavesUses(db, e);
    UsesKept(db, Apply(db, e));
  }

  lemma PlainStepLeavesUses(db: Db, e: Event)
    requires e.step.DoCreatePolicy? || e.step.DoOnLoops?
    ensures LeavesUses(db, Apply(db, e))
  {
    hide LeavesUses, LoopsLinked;
    SameRowsLeaveUses(db, Apply(db, e));
  }

  lemma ControlStepKeepsOrder(db: Db, e: Event)
    requires InOrder(db)
    requires e.step.DoControl? || e.step.DoUpdatePolicy? || e.step.DoCreatePolicy? || e.step.DoOnLoops?
    ensures InOrder(Apply(db, e))
  {
    hide InOrder, Grows, SetControl, UpdatePolicy, LeavesUses;
    match e.step {
      case DoControl(scope, byAdmin, state, until) => ControlKeepsOrder(db, scope, byAdmin, state, until);
      case DoUpdatePolicy(owner, id, version, change) => UpdateKeepsOrder(db, owner, id, version, change);
      case _ => PlainStepKeepsOrder(db, e);
    }
  }

  /** Every step keeps requests, permits, receipts and commands in order. */
  lemma StepKeepsOrder(db: Db, e: Event)
    requires InOrder(db)
    ensures InOrder(Apply(db, e))
  {
    hide Apply, InOrder;
    match e.step
    case DoAsk(q, id) => assert InOrder(Apply(db, e)) by { AskKeepsOrder(db, e.world, q, id, e.now); ApplyAsk(db, e); }
    case DoLapse => assert InOrder(Apply(db, e)) by { LapseKeepsOrder(db, e.now); ApplyAsk(db, e); }
    case DoVote(r, u, approves) =>
      assert InOrder(Apply(db, e)) by { VoteKeepsOrder(db, e.world, r, u, approves, e.now); ApplyAsk(db, e); }
    case DoIssue(_, _, _, _) => PermitStepKeepsOrder(db, e);
    case DoOutdate => PermitStepKeepsOrder(db, e);
    case DoClaimRead(_, _, _) => PermitStepKeepsOrder(db, e);
    case DoClaimWrite(_) => PermitStepKeepsOrder(db, e);
    case DoReceipt(_, _) => PermitStepKeepsOrder(db, e);
    case DoRevoke(_, _, _) => PermitStepKeepsOrder(db, e);
    case DoControl(_, _, _, _) => ControlStepKeepsOrder(db, e);
    case DoUpdatePolicy(_, _, _, _) => ControlStepKeepsOrder(db, e);
    case DoCreatePolicy(_, _) => ControlStepKeepsOrder(db, e);
    case DoOnLoops(_) => ControlStepKeepsOrder(db, e);
    case _ => CommandStepKeepsOrder(db, e);
  }

  lemma ApplyAsk(db: Db, e: Event)
    ensures e.step.DoAsk? ==> Apply(db, e) == CreateApproval(db, e.world, e.step.question, e.step.newId, e.now)
    ensures e.step.DoLapse? ==> Apply(db, e) == LapseApprovals(db, e.now)
    ensures e.step.DoVote? ==>
            Apply(db, e) == CastVote(db, e.world, e.step.request, e.step.user, e.step.approves, e.now)
  {
  }

  /* ---- Loops ---- */

  lemma LinksStay(x: map<Id, Policy>, y: map<Id, Policy>, loops: map<Id, Loop>)
    requires LoopsLinked(x, loops) && PoliciesGrow(x, y)
    ensures LoopsLinked(y, loops)
  {
  }

  lemma StoppingKeepsLinks(db: Db, scope: Scope, byAdmin: bool, state: ControlState, until: Option<Time>)
    requires LoopsLinked(db.policies, db.loops)
    ensures var y := SetControl(db, scope, byAdmin, state, until); LoopsLinked(y.policies, y.loops)
  {
    hide RevokePermits, Reach, SetControlError, Stoppable;
    var (owner, room, policy) := Reach(db, scope);
    RevokingLeavesLoops(WriteControl(db, scope, state, until), owner, room, policy);
  }

  lemma RevokingLeavesLoops(db: Db, owner: Option<Id>, room: Option<Id>, policy: Option<Id>)
    ensures var y := RevokePermits(db, owner, room, policy); y == db.(permits := y.permits)
  {
  }

  lemma OtherStepsLeaveLoops(db: Db, e: Event)
    requires !e.step.DoControl? && !e.step.DoOnLoops?
    ensures Apply(db, e).loops == db.loops
  {
    hide CastVote, CreateApproval, UpdatePolicy, RecordReceipt, IssuePermit, RevokePermits, OutdatePermits,
         LapseApprovals,
         ClaimRead, ClaimWrite, CreatePolicy, DeliverCommand, AcknowledgeCommand, AcceptCommand, RejectCommand,
         CancelCommand, CompleteCommand, IssueCommand, Grows;
    match e.step
    case DoAsk(q, id) => AskingLeavesLoops(db, e.world, q, id, e.now);
    case DoVote(r, u, approves) => VotingLeavesLoops(db, e.world, r, u, approves, e.now);
    case DoLapse => PlainLeavesLoops(db, e);
    case DoOutdate => PlainLeavesLoops(db, e);
    case DoCreatePolicy(_, _) => PlainLeavesLoops(db, e);
    case DoUpdatePolicy(owner, id, version, change) => UpdatingLeavesLoops(db, owner, id, version, change);
    case DoIssue(owner, r, ttl, id) => IssuingLeavesLoops(db, e.world, owner, r, ttl, id, e.now);
    case DoClaimRead(owner, p, executor) => ReadingLeavesLoops(db, e.world, owner, p, executor, e.now);
    case DoClaimWrite(_) => PlainLeavesLoops(db, e);
    case DoReceipt(q, id) => ReceiptLeavesLoops(db, q, id);
    case DoRevoke(owner, room, policy) => RevokingLeavesLoops(db, owner, room, policy);
    case _ => CommandStepGrows(db, e);
  }

  lemma PlainLeavesLoops(db: Db, e: Event)
    requires e.step.DoLapse? || e.step.DoOutdate? || e.step.DoCreatePolicy? || e.step.DoClaimWrite?
    ensures Apply(db, e).loops == db.loops && Apply(db, e).commands == db.commands
  {
    hide Claimable, MarkClaimed;
  }

  lemma AskingLeavesLoops(db: Db, w: World, q: ApprovalRequest, id: Id, now: Time)
    ensures CreateApproval(db, w, q, id, now).loops == db.loops
  {
    hide AskError, KnownKey;
  }

  lemma VotingLeavesLoops(db: Db, w: World, request: Id, u: User, approves: bool, now: Time)
    ensures CastVote(db, w, request, u, approves, now).loops == db.loops
  {
    hide VoteError, QuorumMet, HasReject, Decide;
    if VoteError(db, w, request, u, approves, now).None? && (request, u.subject) !in db.votes {
      hide CastVote;
      VoteTouches(db, w, request, u, approves, now);
    }
  }

  lemma UpdatingLeavesLoops(db: Db, owner: Id, id: Id, version: int, change: PolicyChange)
    ensures var y := UpdatePolicy(db, owner, id, version, change); y.loops == db.loops && y.commands == db.commands
  {
    hide Revocable;
  }

  lemma IssuingLeavesLoops(db: Db, w: World, owner: Id, request: Id, ttl: int, id: Id, now: Time)
    ensures var y := IssuePermit(db, w, owner, request, ttl, id, now); y.loops == db.loops && y.commands == db.commands
  {
    hide RunError, IntegrityError;
  }

  lemma ReadingLeavesLoops(db: Db, w: World, owner: Id, permit: Id, executor: Id, now: Time)
    ensures var y := ClaimRead(db, w, owner, permit, executor, now); y.loops == db.loops && y.commands == db.commands
  {
    hide ClaimError;
  }

  lemma ReceiptLeavesLoops(db: Db, q: ReceiptRequest, id: Id)
    ensures var y := RecordReceipt(db, q, id); y.loops == db.loops && y.commands == db.commands
  {
    hide KnownReceiptKey;
  }

  lemma StepKeepsLinks(db: Db, e: Event)
    requires LoopsLinked(db.policies, db.loops)
    ensures LoopsLinked(Apply(db, e).policies, Apply(db, e).loops)
  {
    if e.step.DoControl? {
      hide SetControl;
      StoppingKeepsLinks(db, e.step.scope, e.step.byAdmin, e.step.state, e.step.until);
    } else if !e.step.DoOnLoops? {
      hide Apply;
      OtherStepsLeaveLoops(db, e);
      StepGrows(db, e);
      LinksStay(db.policies, Apply(db, e).policies, db.loops);
    }
  }

  /* ---- The invariant of runs ---- */

  ghost predicate Inv(db: Db) {
    InOrder(db) && LoopsLinked(db.policies, db.loops)
  }

  /** A step that reads neither the clock nor the rows of other services. */
  function Plain(step: Step): Event {
    Event(step, World(map[], [], false), 0)
  }

  lemma StepKeepsInv(db: Db, e: Event)
    requires Inv(db)
    ensures Inv(Apply(db, e))
  {
    hide InOrder, LoopsLinked, Apply;
    StepKeepsOrder(db, e);
    StepKeepsLinks(db, e);
  }

  lemma ControlKeepsInv(db: Db, scope: Scope, byAdmin: bool, state: ControlState, until: Option<Time>)
    requires Inv(db)
    ensures Inv(SetControl(db, scope, byAdmin, state, until))
  {
    hide Inv, SetControl;
    StepKeepsInv(db, Plain(DoControl(scope, byAdmin, state, until)));
  }

  lemma VoteKeepsInv(db: Db, w: World, request: Id, u: User, approves: bool, now: Time)
    requires Inv(db)
    ensures Inv(CastVote(db, w, request, u, approves, now))
  {
    hide Inv, CastVote;
    StepKeepsInv(db, Event(DoVote(request, u, approves), w, now));
  }

  lemma {:induction false} RunKeepsInv(db: Db, events: seq<Event>)
    requires Inv(db)
    ensures Inv(Run(db, events))
    decreases events
  {
    hide Inv, Apply;
    if events != [] {
      StepKeepsInv(db, events[0]);
      RunKeepsInv(Apply(db, events[0]), events[1..]);
    }
  }
}
