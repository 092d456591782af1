/** What each step may do to a command, a request, a permit or a receipt, and who may make it. */
module AutonomyLifecycles {
  import opened Common
  import opened Autonomy
  import opened AutonomyLaws
  import opened AutonomyTheorems

  /* ---- Commands ---- */

  /** The target has recorded one receipt of the command, and its outcome is the one reported. */
  ghost predicate OneReceipt(db: Db, command: Id, completed: bool)
    requires command in db.commands
  {
    var c := db.commands[command];
    exists r ::
      && IsReceiptOf(db, r, command, c)
      && (db.receipts[r].outcome.Succeeded? <==> completed)
      && forall q :: IsReceiptOf(db, q, command, c) ==> q == r
  }

  predicate IsReceiptOf(db: Db, r: Id, command: Id, c: Command) {
    && r in db.receipts && db.receipts[r].owner == c.owner && db.receipts[r].command == command
    && db.receipts[r].executor == c.envelope.target
  }

  /** The step gives the command the status. Only the target answers a command and only its issuer takes it back. */
  ghost predicate MovesTo(db: Db, e: Event, command: Id, to: CommandStatus)
    requires command in db.commands
  {
    var c := db.commands[command];
    var isNew := c.status.Pending? || c.status.Delivered?;
    var isOpen := isNew || c.status.Acknowledged? || c.status.Accepted?;
    match e.step
    case DoDeliver(k) =>
      var isLate := c.expiresAt.Some? && c.expiresAt.value <= e.now && isOpen;
      k == command && ((to.Expired? && isLate) || (to.Delivered? && !isLate && c.status.Pending?))
    case DoAcknowledge(owner, agent, k) =>
      && to.Acknowledged? && k == command && owner == c.owner && agent == c.envelope.target
      && isNew
    case DoAccept(owner, agent, k) =>
      && to.Accepted? && k == command && owner == c.owner && agent == c.envelope.target
      && isOpen && !c.status.Accepted? && (c.requiresApproval ==> c.approvedBy.Some?)
    case DoReject(owner, agent, k) =>
      to.Rejected? && k == command && owner == c.owner && agent == c.envelope.target && isOpen
    case DoCancel(owner, issuer, k) =>
      to.Cancelled? && k == command && owner == c.owner && issuer == c.envelope.issuer && isOpen
    case DoComplete(owner, agent, k, completed) =>
      && to == (if completed then Completed else Failed) && k == command && owner == c.owner
         && agent == c.envelope.target
      && c.status.Accepted? && (c.envelope.kind.RunTool? && c.requiresApproval ==> OneReceipt(db, command, completed))
    case _ => false
  }

  lemma ReceiptsDecide(db: Db, command: Id, completed: bool)
    requires command in db.commands
    ensures var c := db.commands[command];
            ReceiptsError(db, c.owner, command, c.envelope.target, completed).None? <==>
              OneReceipt(db, command, completed)
  {
    var c := db.commands[command];
    var found := ReceiptsFor(db, c.owner, command, c.envelope.target);
    forall r: Id ensures r in found <==> IsReceiptOf(db, r, command, c) {
    }
    if OneReceipt(db, command, completed) {
      var r: Id :| IsReceiptOf(db, r, command, c) && (db.receipts[r].outcome.Succeeded? <==> completed)
               && forall q :: IsReceiptOf(db, q, command, c) ==> q == r;
      assert found == {r};
    } else if found != {} && |found| == 1 {
      var r :| r in found;
      OnlyOne(found, r);
    }
  }

  lemma OnlyOne(s: set<Id>, x: Id)
    requires x in s && |s| == 1
    ensures forall y :: y in s ==> y == x
  {
    assert |s - {x}| == 0;
  }

  /** The command has the status that the step gives it, if it gives it one of these, and else the one it had. */
  ghost predicate Moved(db: Db, e: Event, command: Id, first: CommandStatus, second: CommandStatus)
    requires command in db.commands
  {
    && command in Apply(db, e).commands
    && Apply(db, e).commands[command].status ==
       if MovesTo(db, e, command, first) then first
       else if MovesTo(db, e, command, second) then second
       else db.commands[command].status
  }

  lemma StatusIsSet(db: Db, k: Id, status: CommandStatus, command: Id)
    ensures k in db.commands && command in db.commands ==>
              var y := WithStatus(db, k, status);
              && command in y.commands
              && y.commands[command].status == if k == command then status else db.commands[command].status
  {
  }

  predicate IsLate(c: Command, now: Time) {
    && c.expiresAt.Some? && c.expiresAt.value <= now
    && (c.status.Pending? || c.status.Delivered? || c.status.Acknowledged? || c.status.Accepted?)
  }

  lemma DeliveryMoves(db: Db, e: Event, command: Id)
    requires command in db.commands && e.step.DoDeliver?
    ensures Moved(db, e, command, Expired, Delivered)
  {
    hide CastVote, CreateApproval, UpdatePolicy, RecordReceipt, IssuePermit, RevokePermits, OutdatePermits,
         LapseApprovals, ClaimRead, ClaimWrite, CreatePolicy, SetControl, LoopsLinked, DeliverCommand, IssueCommand,
         AcknowledgeCommand, AcceptCommand, RejectCommand, CancelCommand, CompleteCommand, MovesTo, IsLate;
    DeliveryIsDue(db, e, command);
    DeliverySets(db, e.step.command, e.now, command);
  }

  lemma DeliveryIsDue(db: Db, e: Event, command: Id)
    requires command in db.commands && e.step.DoDeliver?
    ensures var c := db.commands[command];
            && (MovesTo(db, e, command, Expired) <==> e.step.command == command && IsLate(c, e.now))
            && (MovesTo(db, e, command, Delivered) <==>
                e.step.command == command && !IsLate(c, e.now) && c.status.Pending?)
  {
  }

  lemma DeliverySets(db: Db, k: Id, now: Time, command: Id)
    requires command in db.commands
    ensures var y, c := DeliverCommand(db, k, now), db.commands[command];
            && command in y.commands
            && y.commands[command].status ==
               if k != command then c.status else if IsLate(c, now) then Expired
               else if c.status.Pending? then Delivered else c.status
  {
    hide WithStatus;
    StatusIsSet(db, k, Expired, command);
    StatusIsSet(db, k, Delivered, command);
  }

  lemma AcknowledgmentMoves(db: Db, e: Event, command: Id)
    requires command in db.commands && e.step.DoAcknowledge?
    ensures Moved(db, e, command, Acknowledged, Acknowledged)
  {
    hide CastVote, CreateApproval, UpdatePolicy, RecordReceipt, IssuePermit, RevokePermits, OutdatePermits,
         LapseApprovals, ClaimRead, ClaimWrite, CreatePolicy, SetControl, LoopsLinked, DeliverCommand, IssueCommand,
         AcknowledgeCommand, AcceptCommand, RejectCommand, CancelCommand, CompleteCommand, MovesTo;
    AcknowledgmentIsDue(db, e, command);
    AcknowledgmentSets(db, e.step.owner, e.step.agent, e.step.command, command);
  }

  lemma AcknowledgmentIsDue(db: Db, e: Event, command: Id)
    requires command in db.commands && e.step.DoAcknowledge?
    ensures var c := db.commands[command];
            MovesTo(db, e, command, Acknowledged) <==>
              && e.step.command == command && e.step.owner == c.owner && e.step.agent == c.envelope.target
              && (c.status.Pending? || c.status.Delivered?)
  {
  }

  lemma AcknowledgmentSets(db: Db, owner: Id, agent: Id, k: Id, command: Id)
    requires command in db.commands
    ensures var y, c := AcknowledgeCommand(db, owner, agent, k), db.commands[command];
            && command in y.commands
            && y.commands[command].status ==
               if && k == command && owner == c.owner && agent == c.envelope.target
                  && (c.status.Pending? || c.status.Delivered?) then Acknowledged
               else c.status
  {
    hide WithStatus;
    StatusIsSet(db, k, Acknowledged, command);
  }

  lemma AcceptanceMoves(db: Db, e: Event, command: Id)
    requires command in db.commands && e.step.DoAccept?
    ensures Moved(db, e, command, Accepted, Accepted)
  {
    hide CastVote, CreateApproval, UpdatePolicy, RecordReceipt, IssuePermit, RevokePermits, OutdatePermits,
         LapseApprovals, ClaimRead, ClaimWrite, CreatePolicy, SetControl, LoopsLinked, DeliverCommand, IssueCommand,
         AcknowledgeCommand, AcceptCommand, RejectCommand, CancelCommand, CompleteCommand, MovesTo;
    AcceptanceIsDue(db, e, command);
    AcceptanceSets(db, e.step.owner, e.step.agent, e.step.command, command);
  }

  lemma AcceptanceIsDue(db: Db, e: Event, command: Id)
    requires command in db.commands && e.step.DoAccept?
    ensures var c := db.commands[command];
            MovesTo(db, e, command, Accepted) <==>
              && e.step.command == command && e.step.owner == c.owner && e.step.agent == c.envelope.target
              && (c.status.Pending? || c.status.Delivered? || c.status.Acknowledged?)
                 && (c.requiresApproval ==> c.approvedBy.Some?)
  {
  }

  lemma AcceptanceSets(db: Db, owner: Id, agent: Id, k: Id, command: Id)
    requires command in db.commands
    ensures var y, c := AcceptCommand(db, owner, agent, k), db.commands[command];
            && command in y.commands
            && y.commands[command].status ==
               if && k == command && owner == c.owner && agent == c.envelope.target
                  && (c.status.Pending? || c.status.Delivered? || c.status.Acknowledged?)
                     && (c.requiresApproval ==> c.approvedBy.Some?) then Accepted
               else c.status
  {
    hide WithStatus;
    StatusIsSet(db, k, Accepted, command);
  }

  lemma RejectionMoves(db: Db, e: Event, command: Id)
    requires command in db.commands && e.step.DoReject?
    ensures Moved(db, e, command, CommandStatus.Rejected, CommandStatus.Rejected)
  {
    hide CastVote, CreateApproval, UpdatePolicy, RecordReceipt, IssuePermit, RevokePermits, OutdatePermits,
         LapseApprovals, ClaimRead, ClaimWrite, CreatePolicy, SetControl, LoopsLinked, DeliverCommand, IssueCommand,
         AcknowledgeCommand, AcceptCommand, RejectCommand, CancelCommand, CompleteCommand, MovesTo;
    RejectionIsDue(db, e, command);
    RejectionSets(db, e.step.owner, e.step.agent, e.step.command, command);
  }

  lemma RejectionIsDue(db: Db, e: Event, command: Id)
    requires command in db.commands && e.step.DoReject?
    ensures var c := db.commands[command];
            MovesTo(db, e, command, CommandStatus.Rejected) <==>
              && e.step.command == command && e.step.owner == c.owner && e.step.agent == c.envelope.target
              && (c.status.Pending? || c.status.Delivered? || c.status.Acknowledged? || c.status.Accepted?)
  {
  }

  lemma RejectionSets(db: Db, owner: Id, agent: Id, k: Id, command: Id)
    requires command in db.commands
    ensures var y, c := RejectCommand(db, owner, agent, k), db.commands[command];
            && command in y.commands
            && y.commands[command].status ==
               if && k == command && owner == c.owner && agent == c.envelope.target
                  && (c.status.Pending? || c.status.Delivered? || c.status.Acknowledged? || c.status.Accepted?) then
                     CommandStatus.Rejected
               else c.status
  {
    hide WithStatus;
    StatusIsSet(db, k, CommandStatus.Rejected, command);
  }

  lemma CancelMoves(db: Db, e: Event, command: Id)
    requires command in db.commands && e.step.DoCancel?
    ensures Moved(db, e, command, Cancelled, Cancelled)
  {
    hide CastVote, CreateApproval, UpdatePolicy, RecordReceipt, IssuePermit, RevokePermits, OutdatePermits,
         LapseApprovals, ClaimRead, ClaimWrite, CreatePolicy, SetControl, LoopsLinked, DeliverCommand, IssueCommand,
         AcknowledgeCommand, AcceptCommand, RejectCommand, CancelCommand, CompleteCommand, MovesTo;
    CancelIsDue(db, e, command);
    CancelSets(db, e.step.owner, e.step.issuer, e.step.command, command);
  }

  lemma CancelIsDue(db: Db, e: Event, command: Id)
    requires command in db.commands && e.step.DoCancel?
    ensures var c := db.commands[command];
            MovesTo(db, e, command, Cancelled) <==>
              && e.step.command == command && e.step.owner == c.owner && e.step.issuer == c.envelope.issuer
              && (c.status.Pending? || c.status.Delivered? || c.status.Acknowledged? || c.status.Accepted?)
  {
  }

  lemma CancelSets(db: Db, owner: Id, issuer: Id, k: Id, command: Id)
    requires command in db.commands
    ensures var y, c := CancelCommand(db, owner, issuer, k), db.commands[command];
            && command in y.commands
            && y.commands[command].status ==
               if && k == command && owner == c.owner && issuer == c.envelope.issuer
                  && (c.status.Pending? || c.status.Delivered? || c.status.Acknowledged? || c.status.Accepted?) then
                     Cancelled
               else c.status
  {
    hide WithStatus;
    StatusIsSet(db, k, Cancelled, command);
  }

  lemma CompleteMoves(db: Db, e: Event, command: Id)
    requires command in db.commands && e.step.DoComplete?
    ensures Moved(db, e, command, Completed, Failed)
  {
    hide CastVote, CreateApproval, UpdatePolicy, RecordReceipt, IssuePermit, RevokePermits, OutdatePermits,
         LapseApprovals, ClaimRead, ClaimWrite, CreatePolicy, SetControl, LoopsLinked, DeliverCommand, IssueCommand,
         AcknowledgeCommand, AcceptCommand, RejectCommand, CancelCommand, CompleteCommand, MovesTo, MayEnd;
    CompletionIsDue(db, e, command);
    CompletionSets(db, e.step.owner, e.step.agent, e.step.command, e.step.completed, command);
  }

  /** The target ends an accepted command, a privileged one as its receipt says. */
  ghost predicate MayEnd(db: Db, owner: Id, agent: Id, command: Id, completed: bool)
    requires command in db.commands
  {
    var c := db.commands[command];
    && owner == c.owner && agent == c.envelope.target && c.status.Accepted?
    && (c.envelope.kind.RunTool? && c.requiresApproval ==> OneReceipt(db, command, completed))
  }

  lemma CompletionIsDue(db: Db, e: Event, command: Id)
    requires command in db.commands && e.step.DoComplete?
    ensures var due := e.step.command == command && MayEnd(db, e.step.owner, e.step.agent, command, e.step.completed);
            && (MovesTo(db, e, command, Completed) <==> due && e.step.completed)
            && (MovesTo(db, e, command, Failed) <==> due && !e.step.completed)
  {
    hide OneReceipt;
  }

  lemma CompletionSets(db: Db, owner: Id, agent: Id, k: Id, completed: bool, command: Id)
    requires command in db.commands
    ensures var y := CompleteCommand(db, owner, agent, k, completed);
            && command in y.commands
            && y.commands[command].status ==
               if k == command && MayEnd(db, owner, agent, command, completed)
               then if completed then Completed else Failed
               else db.commands[command].status
  {
    hide WithStatus, OneReceipt, ReceiptsError;
    StatusIsSet(db, k, if completed then Completed else Failed, command);
    ReceiptsDecide(db, command, completed);
  }

  lemma IssueMoves(db: Db, e: Event, command: Id)
    requires command in db.commands && e.step.DoIssueCommand?
    ensures command in Apply(db, e).commands
    ensures Apply(db, e).commands[command].status == db.commands[command].status
  {
  }

  /** Two statuses are never due at once, and which may be due is a matter of the step. */
  lemma OneMoveAtMost(db: Db, e: Event, command: Id, to: CommandStatus)
    requires command in db.commands && MovesTo(db, e, command, to)
    ensures e.step.DoDeliver? ==> to.Expired? || (to.Delivered? && !MovesTo(db, e, command, Expired))
    ensures e.step.DoAcknowledge? ==> to.Acknowledged?
    ensures e.step.DoAccept? ==> to.Accepted?
    ensures e.step.DoReject? ==> to.Rejected?
    ensures e.step.DoCancel? ==> to.Cancelled?
    ensures e.step.DoComplete? ==> to.Completed? || (to.Failed? && !MovesTo(db, e, command, Completed))
    ensures e.step.DoDeliver? || e.step.DoAcknowledge? || e.step.DoAccept? || e.step.DoReject? || e.step.DoCancel?
            || e.step.DoComplete?
  {
    hide OneReceipt;
  }

  predicate IsOnCommands(s: Step) {
    || s.DoIssueCommand? || s.DoDeliver? || s.DoAcknowledge? || s.DoAccept? || s.DoReject? || s.DoCancel?
    || s.DoComplete?
  }

  lemma OtherStepsLeaveStatus(db: Db, e: Event, command: Id)
    requires command in db.commands && !IsOnCommands(e.step)
    ensures command in Apply(db, e).commands
    ensures Apply(db, e).commands[command].status == db.commands[command].status
  {
    hide CastVote, CreateApproval, UpdatePolicy, RecordReceipt, IssuePermit, RevokePermits, OutdatePermits,
         LapseApprovals, ClaimRead, ClaimWrite, CreatePolicy, SetControl, LoopsLinked, UseOk;
    match e.step
    case DoAsk(q, id) => AsksLeaveStatus(db, e.world, q, id, e.now, command);
    case DoVote(r, u, approves) => VotesLeaveStatus(db, e.world, r, u, approves, e.now, command);
    case DoUpdatePolicy(owner, id, version, change) => UpdatingLeavesLoops(db, owner, id, version, change);
    case DoIssue(owner, r, ttl, id) => IssuingLeavesLoops(db, e.world, owner, r, ttl, id, e.now);
    case DoClaimRead(owner, p, executor) => ReadingLeavesLoops(db, e.world, owner, p, executor, e.now);
    case DoReceipt(q, id) => ReceiptLeavesLoops(db, q, id);
    case DoRevoke(owner, room, policy) => RevokingLeavesLoops(db, owner, room, policy);
    case DoControl(scope, byAdmin, state, until) => ControlLeavesUses(db, scope, byAdmin, state, until);
    case DoOnLoops(_) =>
    case _ => PlainLeavesLoops(db, e);
  }

  lemma AsksLeaveStatus(db: Db, w: World, q: ApprovalRequest, id: Id, now: Time, command: Id)
    requires command in db.commands
    ensures var y := CreateApproval(db, w, q, id, now);
            command in y.commands && y.commands[command].status == db.commands[command].status
  {
    hide CreateApproval, CreateApprovalError, KnownKey, NewApproval;
    if CreateApprovalError(db, w, q, id, now).None? && !KnownKey(db, q.owner, q.key) {
      AskTouches(db, w, q, id, now);
    } else {
      NothingAsked(db, w, q, id, now);
    }
  }

  lemma NothingAsked(db: Db, w: World, q: ApprovalRequest, id: Id, now: Time)
    requires CreateApprovalError(db, w, q, id, now).Some? || KnownKey(db, q.owner, q.key)
    ensures CreateApproval(db, w, q, id, now) == db
  {
    hide CreateApprovalError, KnownKey;
  }

  lemma VotesLeaveStatus(db: Db, w: World, request: Id, u: User, approves: bool, now: Time, command: Id)
    requires command in db.commands
    ensures var y := CastVote(db, w, request, u, approves, now);
            command in y.commands && y.commands[command].status == db.commands[command].status
  {
    hide VoteError, QuorumMet, HasReject, Decide;
    if VoteError(db, w, request, u, approves, now).None? && (request, u.subject) !in db.votes {
      hide CastVote;
      VoteTouches(db, w, request, u, approves, now);
    }
  }

  /**
   * The life of a command: every change of its status is one of these moves, made by
   * whom they name, and every move that is due takes place.
   */
  lemma CommandMovesExactly(db: Db, e: Event, command: Id)
    requires command in db.commands
    ensures command in Apply(db, e).commands
    ensures forall to :: MovesTo(db, e, command, to) ==> Apply(db, e).commands[command].status == to
    ensures (forall to :: !MovesTo(db, e, command, to)) ==>
              Apply(db, e).commands[command].status == db.commands[command].status
  {
    hide Apply, MovesTo;
    forall to | MovesTo(db, e, command, to) {
      OneMoveAtMost(db, e, command, to);
    }
    if !IsOnCommands(e.step) {
      OtherStepsLeaveStatus(db, e, command);
    } else if e.step.DoIssueCommand? {
      IssueMoves(db, e, command);
    } else if e.step.DoDeliver? {
      DeliveryMoves(db, e, command);
    } else if e.step.DoCancel? {
      CancelMoves(db, e, command);
    } else if e.step.DoComplete? {
      CompleteMoves(db, e, command);
    } else if e.step.DoAcknowledge? {
      AcknowledgmentMoves(db, e, command);
    } else if e.step.DoAccept? {
      AcceptanceMoves(db, e, command);
    } else {
      RejectionMoves(db, e, command);
    }
  }

  /** A command starts pending and unapproved, as it was issued. */
  lemma CommandStartsPending(db: Db, owner: Id, envelope: Envelope, requiresApproval: bool, id: Id)
    requires id !in db.commands
    ensures var y := IssueCommand(db, owner, envelope, requiresApproval, id);
            && id in y.commands && y == db.(commands := db.commands[id := y.commands[id]])
            && var c := y.commands[id];
               && c.owner == owner && c.envelope == envelope && c.requiresApproval == requiresApproval
               && c.status.Pending? && c.approvedBy.None? && c.expiresAt.None?
  {
  }

  /* ---- Requests ---- */

  /** Among the grants about the request, the subject's first lets it approve. */
  ghost predicate FirstGrantApproves(w: World, request: Id, a: Approval, subject: Id) {
    exists i :: 0 <= i < |w.grants| && IsAbout(w.grants[i], request, a, subject) && w.grants[i].mayApprove
                && forall j :: 0 <= j < i ==> !IsAbout(w.grants[j], request, a, subject)
  }

  predicate IsAbout(g: Grant, request: Id, a: Approval, subject: Id) {
    g.owner == a.owner && g.grantee == subject && g.isActive && g.resource in {request, a.policy, a.room}
  }

  lemma {:induction false} FirstGrantIs(grants: seq<Grant>, request: Id, a: Approval, subject: Id)
    ensures var f := FirstGrant(grants, request, a, subject);
            if f.None? then forall i :: 0 <= i < |grants| ==> !IsAbout(grants[i], request, a, subject)
            else exists i :: 0 <= i < |grants| && grants[i] == f.value && IsAbout(grants[i], request, a, subject)
                             && forall j :: 0 <= j < i ==> !IsAbout(grants[j], request, a, subject)
  {
    if grants != [] && !Concerns(grants[0], request, a, subject) {
      var rest := grants[1..];
      FirstGrantIs(rest, request, a, subject);
      var f := FirstGrant(rest, request, a, subject);
      if f.Some? {
        var i :| 0 <= i < |rest| && rest[i] == f.value && IsAbout(rest[i], request, a, subject)
                 && forall j :: 0 <= j < i ==> !IsAbout(rest[j], request, a, subject);
        assert grants[i + 1] == f.value;
        forall j | 0 <= j < i + 1 ensures !IsAbout(grants[j], request, a, subject) {
          assert j > 0 ==> grants[j] == rest[j - 1];
        }
      } else {
        forall i | 0 <= i < |grants| ensures !IsAbout(grants[i], request, a, subject) {
          assert i > 0 ==> grants[i] == rest[i - 1];
        }
      }
    }
  }

  /**
   * A vote is taken exactly on an open request in time, from its owner, an
   * administrator or somebody whose first grant lets them approve, not from the
   * proposer if the rule shuts it out, and not against the voter's own earlier vote.
   */
  lemma VoteTakenExactly(db: Db, w: World, request: Id, u: User, approves: bool, now: Time)
    ensures VoteError(db, w, request, u, approves, now).None? <==>
            && request in db.approvals
            && var a := db.approvals[request];
               && (u.subject == a.owner || u.isAdmin || FirstGrantApproves(w, request, a, u.subject))
               && a.status.Open? && now < a.expiresAt
               && (a.rule.disallowProposer ==> u.subject != a.createdBy)
               && ((request, u.subject) in db.votes ==> db.votes[(request, u.subject)].approves == approves)
  {
    if request in db.approvals {
      GrantDecides(w, request, db.approvals[request], u.subject);
      hide FirstGrant;
    }
  }

  lemma GrantDecides(w: World, request: Id, a: Approval, subject: Id)
    ensures var f := FirstGrant(w.grants, request, a, subject);
            f.Some? && f.value.mayApprove <==> FirstGrantApproves(w, request, a, subject)
  {
    FirstGrantIs(w.grants, request, a, subject);
    if FirstGrantApproves(w, request, a, subject) {
      var i :| 0 <= i < |w.grants| && IsAbout(w.grants[i], request, a, subject) && w.grants[i].mayApprove
               && forall j :: 0 <= j < i ==> !IsAbout(w.grants[j], request, a, subject);
      var f := FirstGrant(w.grants, request, a, subject);
      var k :| 0 <= k < |w.grants| && w.grants[k] == f.value && IsAbout(w.grants[k], request, a, subject)
               && forall j :: 0 <= j < k ==> !IsAbout(w.grants[j], request, a, subject);
      assert i == k;
    }
  }

  /**
   * What a first vote does: it is kept with whether an administrator cast it, a
   * rejection turns the request down, an approval with which the votes are enough
   * approves it and notes that on its command, and nothing else changes.
   */
  lemma VoteCounts(db: Db, w: World, request: Id, u: User, approves: bool, now: Time)
    requires Inv(db) && VoteError(db, w, request, u, approves, now).None? && (request, u.subject) !in db.votes
    ensures var y := CastVote(db, w, request, u, approves, now);
            && request in db.approvals && request in y.approvals
            && var a := db.approvals[request];
               && a.command in db.commands && a.command in y.commands
               && y.votes == db.votes[(request, u.subject) := Vote(approves, u.isAdmin)]
               && y.approvals == db.approvals[request := a.(status := y.approvals[request].status)]
               && (y.approvals[request].status.TurnedDown? <==> !approves)
               && (y.approvals[request].status.Approved? <==> approves && EnoughVotes(y, request))
               && (y.approvals[request].status.Open? <==> approves && !EnoughVotes(y, request))
               && y == db.(votes := y.votes, approvals := y.approvals, commands := y.commands)
               && y.commands == db.commands[a.command := db.commands[a.command].(approvedBy :=
                    if approves && EnoughVotes(y, request) then Some(request) else db.commands[a.command].approvedBy)]
  {
    hide VoteError, CastVote, EnoughVotes, QuorumMet, HasReject;
    var y := CastVote(db, w, request, u, approves, now);
    VoteTouches(db, w, request, u, approves, now);
    RequestIsLinked(db, request);
    QuorumIsEnough(y, request);
    NobodyAgainst(db, request);
    RejectIsAgainst(db, request);
    RejectIsAgainst(y, request);
    if approves {
      forall v ensures !VotedAgainst(y, request, v) {
        assert !VotedAgainst(db, request, v);
      }
    } else {
      assert VotedAgainst(y, request, u.subject);
    }
    ApprovedCommandIsNoted(db, w, request, u, approves, now);
  }

  lemma NobodyAgainst(db: Db, request: Id)
    requires Inv(db) && request in db.approvals && db.approvals[request].status.Open?
    ensures !HasReject(db.votes, request)
  {
    assert TallyOk(db.votes, request, db.approvals[request]);
  }

  lemma ApprovedCommandIsNoted(db: Db, w: World, request: Id, u: User, approves: bool, now: Time)
    requires VoteError(db, w, request, u, approves, now).None? && (request, u.subject) !in db.votes
    requires request in db.approvals && db.approvals[request].command in db.commands
    ensures var y, c := CastVote(db, w, request, u, approves, now), db.approvals[request].command;
            && request in y.approvals
            && y.commands == if y.approvals[request].status.Approved?
                             then db.commands[c := db.commands[c].(approvedBy := Some(request))] else db.commands
  {
    hide VoteError, Decide;
    OpenUntilNow(db, w, request, u, approves, now);
    DecisionIsNoted(AddVote(db, request, u, approves), request);
  }

  lemma DecisionIsNoted(db: Db, request: Id)
    requires request in db.approvals && db.approvals[request].status.Open?
    requires db.approvals[request].command in db.commands
    ensures var y, c := Decide(db, request), db.approvals[request].command;
            && request in y.approvals
            && y.commands == if y.approvals[request].status.Approved?
                             then db.commands[c := db.commands[c].(approvedBy := Some(request))] else db.commands
  {
    hide HasReject, QuorumMet, MarkCommand;
    var approved := db.(approvals := db.approvals[request := db.approvals[request].(status := Approved)]);
    MarkIsNoted(approved, request);
  }

  lemma MarkIsNoted(db: Db, request: Id)
    requires request in db.approvals && db.approvals[request].status.Approved?
    requires db.approvals[request].command in db.commands
    ensures var y, c := MarkCommand(db, request), db.approvals[request].command;
            && y.approvals == db.approvals
            && y.commands == db.commands[c := db.commands[c].(approvedBy := Some(request))]
  {
  }

  lemma OpenUntilNow(db: Db, w: World, request: Id, u: User, approves: bool, now: Time)
    requires VoteError(db, w, request, u, approves, now).None?
    ensures request in db.approvals && db.approvals[request].status.Open?
  {
    hide CanVote;
  }

  /** Listing requests lapses exactly the open ones whose time is over. */
  lemma LapseExactly(db: Db, now: Time, request: Id)
    requires request in db.approvals
    ensures var y, a := LapseApprovals(db, now), db.approvals[request];
            && y == db.(approvals := y.approvals) && y.approvals.Keys == db.approvals.Keys
            && if a.status.Open? && a.expiresAt <= now then y.approvals[request] == a.(status := Lapsed)
               else y.approvals[request] == a
  {
  }

  /* ---- Permits and receipts ---- */

  /** The step gives the permit the status. */
  ghost predicate PermitMovesTo(db: Db, e: Event, permit: Id, to: PermitStatus)
    requires permit in db.permits
  {
    var p := db.permits[permit];
    var isRunning := p.status.Issued? || p.status.Claimed?;
    match e.step
    case DoOutdate => to.Outdated? && isRunning && p.expiresAt <= e.now
    case DoClaimWrite(t) =>
      to.Claimed? && p.status.Issued? && t in db.inFlight && t.permit == permit && t.token == p.token
    case DoReceipt(q, id) => to.Consumed? && q.permit == permit && TakesReceipt(db, q, id)
    case DoControl(scope, byAdmin, state, _) => to.Revoked? && isRunning && IsStop(db, e) && Concerned(db, p, scope)
    case DoUpdatePolicy(owner, id, version, change) =>
      to.Revoked? && isRunning && id == p.policy && UpdatePolicyError(db, owner, id, version, change).None?
    case DoRevoke(owner, room, policy) =>
      && to.Revoked? && isRunning && (owner.Some? ==> owner.value == p.owner)
      && (policy.Some? ==> policy.value == p.policy)
      && p.request in db.approvals && (room.Some? ==> room.value == db.approvals[p.request].room)
    case _ => false
  }

  /** The executor reports with the current token on a permit that was claimed and not used up, under a new key. */
  ghost predicate TakesReceipt(db: Db, q: ReceiptRequest, id: Id) {
    && q.permit in db.permits && id !in db.receipts
    && (q.key.Some? ==> forall r :: r in db.receipts && db.receipts[r].owner == q.owner ==> db.receipts[r].key != q.key)
    && var p := db.permits[q.permit];
       && p.owner == q.owner && p.executor == q.executor && p.token == q.token
       && p.wasClaimed && (p.status.Claimed? || p.status.Revoked?)
  }

  /** A receipt is taken exactly then, says what the permit was for and how the action went, and uses the permit up. */
  lemma ReceiptTakenExactly(db: Db, q: ReceiptRequest, id: Id)
    ensures var y := RecordReceipt(db, q, id);
            if TakesReceipt(db, q, id) then
              && id in y.receipts && q.permit in y.permits
              && y == db.(receipts := db.receipts[id := y.receipts[id]],
                          permits := db.permits[q.permit := db.permits[q.permit].(status := Consumed)])
              && var p, r := db.permits[q.permit], y.receipts[id];
                 && r.owner == q.owner && r.permit == q.permit && r.request == p.request && r.command == p.command
                 && r.executor == p.executor && r.outcome == q.outcome && r.key == q.key
            else y == db
  {
  }

  /**
   * The life of a permit: every change of its status is one of these moves, and every
   * move that is due takes place.
   */
  lemma PermitMovesExactly(db: Db, e: Event, permit: Id)
    requires Inv(db) && permit in db.permits
    ensures permit in Apply(db, e).permits
    ensures forall to :: PermitMovesTo(db, e, permit, to) ==> Apply(db, e).permits[permit].status == to
    ensures (forall to :: !PermitMovesTo(db, e, permit, to)) ==>
              Apply(db, e).permits[permit].status == db.permits[permit].status
  {
    hide Inv, Apply, PermitMovesTo, TakesReceipt;
    forall to | PermitMovesTo(db, e, permit, to) {
      OnePermitMove(db, e, permit, to);
    }
    match e.step
    case DoControl(_, _, _, _) => ControlMoves(db, e, permit);
    case DoUpdatePolicy(_, _, _, _) => UpdateMoves(db, e, permit);
    case DoReceipt(_, _) => ReceiptMoves(db, e, permit);
    case DoOutdate => OutdateMoves(db, e, permit);
    case DoRevoke(_, _, _) => RevokeMoves(db, e, permit);
    case DoClaimWrite(_) => ClaimMoves(db, e, permit);
    case _ => OtherStepsKeepPermit(db, e, permit);
  }

  lemma OnePermitMove(db: Db, e: Event, permit: Id, to: PermitStatus)
    requires permit in db.permits && PermitMovesTo(db, e, permit, to)
    ensures WritesPermits(e.step)
    ensures e.step.DoControl? || e.step.DoUpdatePolicy? || e.step.DoRevoke? ==> to.Revoked?
    ensures e.step.DoOutdate? ==> to.Outdated?
    ensures e.step.DoClaimWrite? ==> to.Claimed?
    ensures e.step.DoReceipt? ==> to.Consumed?
  {
    hide TakesReceipt, UpdatePolicyError, IsStop, Concerned;
  }

  lemma ReceiptMoves(db: Db, e: Event, permit: Id)
    requires permit in db.permits && e.step.DoReceipt?
    ensures permit in Apply(db, e).permits
    ensures Apply(db, e).permits[permit].status ==
            if PermitMovesTo(db, e, permit, Consumed) then Consumed else db.permits[permit].status
  {
    hide TakesReceipt, RecordReceipt;
    ReceiptTakenExactly(db, e.step.receipt, e.step.newId);
  }

  lemma ControlMoves(db: Db, e: Event, permit: Id)
    requires Inv(db) && permit in db.permits && e.step.DoControl?
    ensures permit in Apply(db, e).permits
    ensures Apply(db, e).permits[permit].status ==
            if PermitMovesTo(db, e, permit, Revoked) then Revoked else db.permits[permit].status
  {
    hide Inv, Concerned, SetControlError;
    if IsStop(db, e) {
      StopStops(db, e);
    } else {
      NoStopKeeps(db, e);
    }
  }

  lemma NoStopKeeps(db: Db, e: Event)
    requires e.step.DoControl? && !IsStop(db, e)
    ensures Apply(db, e).permits == db.permits
  {
    hide Reach, SetControlError, RevokePermits, StopLoops;
  }

  lemma UpdateMoves(db: Db, e: Event, permit: Id)
    requires Inv(db) && permit in db.permits && e.step.DoUpdatePolicy?
    ensures permit in Apply(db, e).permits
    ensures Apply(db, e).permits[permit].status ==
            if PermitMovesTo(db, e, permit, Revoked) then Revoked else db.permits[permit].status
  {
    hide Inv, RevokePermits, UpdatePolicyError;
    if UpdatePolicyError(db, e.step.owner, e.step.policy, e.step.expectedVersion, e.step.change).None? {
      hide UpdatePolicy;
      UpdateRevokes(db, e.step.owner, e.step.policy, e.step.expectedVersion, e.step.change, permit);
    }
  }

  lemma OutdateMoves(db: Db, e: Event, permit: Id)
    requires permit in db.permits && e.step.DoOutdate?
    ensures permit in Apply(db, e).permits
    ensures Apply(db, e).permits[permit].status ==
            if PermitMovesTo(db, e, permit, Outdated) then Outdated else db.permits[permit].status
  {
  }

  lemma RevokeMoves(db: Db, e: Event, permit: Id)
    requires permit in db.permits && e.step.DoRevoke?
    ensures permit in Apply(db, e).permits
    ensures Apply(db, e).permits[permit].status ==
            if PermitMovesTo(db, e, permit, Revoked) then Revoked else db.permits[permit].status
  {
  }

  lemma ClaimMoves(db: Db, e: Event, permit: Id)
    requires permit in db.permits && e.step.DoClaimWrite?
    ensures permit in Apply(db, e).permits
    ensures Apply(db, e).permits[permit].status ==
            if PermitMovesTo(db, e, permit, Claimed) then Claimed else db.permits[permit].status
  {
    hide TakesReceipt, UpdatePolicyError, IsStop, Concerned, PermitMovesTo;
    ClaimWrites(db, e.step.ticket, permit);
    ClaimIsDue(db, e, permit);
  }

  lemma ClaimIsDue(db: Db, e: Event, permit: Id)
    requires permit in db.permits && e.step.DoClaimWrite?
    ensures var t, p := e.step.ticket, db.permits[permit];
            PermitMovesTo(db, e, permit, Claimed) <==>
              p.status.Issued? && t in db.inFlight && t.permit == permit && t.token == p.token
  {
  }

  lemma ClaimWrites(db: Db, t: Ticket, permit: Id)
    requires permit in db.permits
    ensures var y, p := ClaimWrite(db, t), db.permits[permit];
            && permit in y.permits
            && y.permits[permit].status ==
               if p.status.Issued? && t in db.inFlight && t.permit == permit && t.token == p.token then Claimed
               else p.status
  {
  }

  /* ---- Asking for approval ---- */

  /** Nothing stops the policy in its room: no stop in the environment, the policy active, its four controls enabled. */
  ghost predicate Unstopped(db: Db, w: World, id: Id, now: Time)
    requires id in db.policies
  {
    var p := db.policies[id];
    !w.emergencyStop && p.status.PolicyActive? && Effective(db, p.owner, p.room, id, now).Enabled?
  }

  lemma UnstoppedIsNoError(db: Db, w: World, id: Id, now: Time)
    requires id in db.policies
    ensures var p := db.policies[id];
            RunError(db, w, p.owner, p.room, id, now).None? <==> Unstopped(db, w, id, now)
  {
    hide StateAt, Scopes;
  }

  /** The owner has asked with this key before. */
  predicate AskedBefore(db: Db, q: ApprovalRequest) {
    q.key.Some? && exists r :: r in db.approvals && db.approvals[r].owner == q.owner && db.approvals[r].key == q.key
  }

  /**
   * Asking again under a known key changes nothing. Otherwise a request is taken
   * exactly when the owner has the policy, the command and the executor, all three in
   * one room, nothing stops the policy, the executor is the target of the command and
   * the command is not over, the policy allows the class, the tool and the profile,
   * and the time to live is from half a minute to a day.
   */
  lemma AskedExactly(db: Db, w: World, q: ApprovalRequest, id: Id, now: Time)
    requires id !in db.approvals
    ensures AskedBefore(db, q) ==> CreateApproval(db, w, q, id, now) == db
    ensures id in CreateApproval(db, w, q, id, now).approvals <==>
            && !AskedBefore(db, q)
            && q.policy in db.policies && db.policies[q.policy].owner == q.owner && Unstopped(db, w, q.policy, now)
            && q.command in db.commands && q.executor in w.agents
            && var p, c, agent := db.policies[q.policy], db.commands[q.command], w.agents[q.executor];
               && c.owner == q.owner == agent.owner && agent.room == Some(p.room) && c.envelope.room == p.room
               && c.envelope.target == q.executor
               && (c.status.Pending? || c.status.Delivered? || c.status.Acknowledged? || c.status.Accepted?)
               && q.class_ in p.classes && c.envelope.kind.RunTool? && c.envelope.kind.call.tool in p.tools
               && (c.envelope.kind.call.ShellTool? ==>
                     && !c.envelope.kind.call.rawArguments && c.envelope.kind.call.profile.Some?
                     && c.envelope.kind.call.profile.value in p.profiles)
               && 30 <= q.ttl <= 86400
  {
    hide RunError, Unstopped;
    assert KnownKey(db, q.owner, q.key) <==> AskedBefore(db, q);
    hide KnownKey, AskedBefore;
    if q.policy in db.policies {
      UnstoppedIsNoError(db, w, q.policy, now);
    }
  }

  /**
   * Once a claim has gone through, repeating it is answered with the permit exactly
   * for its owner's executor while it has time left, and no further claim passes its
   * checks. Under a permit in any other status no claim is taken for a repetition.
   */
  lemma OwnClaimIsHandedBack(db: Db, w: World, t: Ticket, permit: Id, owner: Id, executor: Id, later: Time)
    ensures permit in db.permits && !db.permits[permit].status.Claimed? ==>
              !AlreadyClaimed(db, owner, permit, executor, later)
    ensures t in db.inFlight && Claimable(db, t) ==>
              var y, p := ClaimWrite(db, t), db.permits[t.permit];
              && (AlreadyClaimed(y, owner, t.permit, executor, later) <==>
                  owner == p.owner && executor == p.executor && later < p.expiresAt)
              && ClaimError(y, w, owner, t.permit, executor, later).Some?
  {
    hide ClaimError;
    if t in db.inFlight && Claimable(db, t) {
      OnlyIssuedIsClaimed(ClaimWrite(db, t), w, owner, t.permit, executor, later);
    }
  }

  lemma OnlyIssuedIsClaimed(db: Db, w: World, owner: Id, permit: Id, executor: Id, now: Time)
    requires permit in db.permits && !db.permits[permit].status.Issued?
    ensures ClaimError(db, w, owner, permit, executor, now).Some?
  {
    hide RunError, IntegrityError, Generations;
  }

  /** A ticket allows one compare-and-set, whatever comes of it. */
  lemma TicketIsUsedUp(db: Db, t: Ticket)
    ensures ClaimWrite(db, t).inFlight == db.inFlight - {t}
  {
  }

  /* ---- Policies ---- */

  /** A new policy starts with its first generation and version and is otherwise as given. */
  lemma PolicyStarts(db: Db, p: Policy, id: Id)
    requires id !in db.policies
    ensures var y := CreatePolicy(db, p, id);
            && id in y.policies && y == db.(policies := db.policies[id := y.policies[id]])
            && y.policies[id] == p.(generation := 1, version := 1)
  {
  }
}
