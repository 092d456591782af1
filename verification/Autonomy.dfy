/**
 * Approval of agent commands. A privileged command is run only under a one-use
 * permit, which needs an approved request; a receipt uses the permit up and lets the
 * command be completed. Policies and pause/kill controls carry generation numbers
 * that fence older permits. A request that fails changes nothing.
 */
module Autonomy {
  import opened Common

  datatype ActionClass = Read | Write | Destructive | Production

  /** How many approvals a class of action needs. */
  datatype Rule = Rule(quorum: nat, requireAdmin: bool, disallowProposer: bool)

  datatype Rules = Rules(read: Rule, write: Rule, destructive: Rule, production: Rule) {
    function For(c: ActionClass): Rule {
      match c
      case Read => read
      case Write => write
      case Destructive => destructive
      case Production => production
    }
  }

  datatype PolicyStatus = PolicyActive | PolicyPaused | PolicyDisabled

  datatype Policy = Policy(
    owner: Id, room: Id, status: PolicyStatus, classes: set<ActionClass>, tools: set<Id>, profiles: set<Id>,
    rules: Rules, generation: nat, version: nat)

  datatype PolicyChange = PolicyChange(
    status: Option<PolicyStatus>, classes: Option<set<ActionClass>>, tools: Option<set<Id>>,
    profiles: Option<set<Id>>, rules: Option<Rules>)

  /** A shell-capable tool runs only named profiles; `shell` carries the profile asked for, if any. */
  datatype Call = PlainTool(tool: Id) | ShellTool(tool: Id, rawArguments: bool, profile: Option<Id>)

  datatype Kind = RunTool(call: Call) | Other

  /** Everything about a command that its approval is for. */
  datatype Envelope = Envelope(room: Id, issuer: Id, target: Id, kind: Kind, content: Id)

  datatype CommandStatus =
    | Pending | Delivered | Acknowledged | Accepted | Completed | Failed | Rejected | Cancelled | Expired

  datatype Command = Command(
    owner: Id, envelope: Envelope, requiresApproval: bool, approvedBy: Option<Id>, status: CommandStatus,
      expiresAt: Option<Time>)

  predicate IsTerminal(s: CommandStatus) {
    s.Completed? || s.Failed? || s.Rejected? || s.Cancelled? || s.Expired?
  }

  datatype ApprovalStatus = Open | Approved | TurnedDown | Lapsed

  /** `payload` is the envelope as it was when approval was asked for; the program keeps its hash. */
  datatype Approval = Approval(
    owner: Id, room: Id, policy: Id, command: Id, executor: Id, class_: ActionClass, payload: Envelope,
    rule: Rule, status: ApprovalStatus, policyGeneration: nat, createdBy: Id, expiresAt: Time, key: Option<Id>)

  datatype Vote = Vote(approves: bool, byAdmin: bool)

  datatype PermitStatus = Issued | Claimed | Consumed | Outdated | Revoked

  /** `wasClaimed` stands for the time of the claim being recorded. */
  datatype Permit = Permit(
    owner: Id, request: Id, policy: Id, command: Id, executor: Id, status: PermitStatus,
    policyGeneration: nat, generations: seq<nat>, token: nat, useCount: nat, wasClaimed: bool, expiresAt: Time)

  datatype ReceiptOutcome = Succeeded | FailedRun | Partial | Unknown

  datatype Receipt = Receipt(
    owner: Id, permit: Id, request: Id, command: Id, executor: Id, outcome: ReceiptOutcome, key: Option<Id>)

  datatype ControlState = Enabled | Paused | Killed

  datatype Control = Control(state: ControlState, generation: nat, expiresAt: Option<Time>)

  datatype Scope = Global | Tenant(owner: Id) | InRoom(owner: Id, room: Id) | UnderPolicy(owner: Id, policy: Id)

  datatype LoopStatus = Planned | Waiting | LoopPaused | LoopSucceeded | Exhausted | LoopCancelled

  /** A recovery loop: commands are sent until one succeeds or the attempts are used up. */
  datatype Loop = Loop(
    owner: Id, room: Id, policy: Id, status: LoopStatus, attempts: nat, maxAttempts: nat, baseBackoff: nat,
    nextAt: Time, policyGeneration: nat, lastCommand: Option<Id>, generation: nat)

  /** A claim that has passed its checks and has yet to do its compare-and-set. */
  datatype Ticket = Ticket(permit: Id, executor: Id, token: nat)

  datatype Db = Db(
    rooms: map<Id, Id>, policies: map<Id, Policy>, commands: map<Id, Command>,
    approvals: map<Id, Approval>, votes: Votes,
    permits: map<Id, Permit>, receipts: map<Id, Receipt>,
    controls: map<Scope, Control>, loops: map<Id, Loop>, inFlight: set<Ticket>)

  datatype Agent = Agent(owner: Id, room: Option<Id>)

  datatype User = User(subject: Id, isAdmin: bool)

  /** `resource` is the id of a request, a policy or a room. */
  datatype Grant = Grant(owner: Id, grantee: Id, resource: Id, isActive: bool, mayApprove: bool)

  /** What the operations read and do not write, with grants in the order in which a query returns them. */
  datatype World = World(agents: map<Id, Agent>, grants: seq<Grant>, emergencyStop: bool)

  datatype Error =
    | NotFound | VersionConflict | NoClasses | NotAdmin | PolicyNotActive | AutonomyStopped
    | RoomMismatch | NotTarget | TerminalCommand | ClassNotAllowed | NotExecutable | BadTtl
    | OutsideScope | RequestNotPending | ProposerMayNotVote | VotedOtherwise
    | NotApproved | StalePolicy | PayloadChanged | ExecutorChanged | PermitEnded | RequestExpired
    | PermitNotActive | WrongExecutor | StaleControl | CommandNotAccepted | ClaimConflict
    | StaleToken | NotClaimed | WrongStatus | ApprovalMissing | ReceiptMissing | ReceiptsAmbiguous | OutcomeMismatch
    | IdTaken

  /* ---- Controls ---- */

  function Scopes(owner: Id, room: Id, policy: Id): seq<Scope> {
    [Global, Tenant(owner), InRoom(owner, room), UnderPolicy(owner, policy)]
  }

  /** An expired control counts as enabled. */
  function StateAt(db: Db, scope: Scope, now: Time): ControlState {
    if scope !in db.controls then Enabled
    else
      var c := db.controls[scope];
      if c.expiresAt.None? || c.expiresAt.value > now then c.state else Enabled
  }

  function GenerationOf(controls: map<Scope, Control>, scope: Scope): nat {
    if scope in controls then controls[scope].generation else 0
  }

  function Generations(db: Db, owner: Id, room: Id, policy: Id): (g: seq<nat>)
    ensures |g| == 4
  {
    [GenerationOf(db.controls, Global), GenerationOf(db.controls, Tenant(owner)),
     GenerationOf(db.controls, InRoom(owner, room)),
     GenerationOf(db.controls, UnderPolicy(owner, policy))]
  }

  predicate AllEnabled(db: Db, owner: Id, room: Id, policy: Id, now: Time) {
    forall s :: s in Scopes(owner, room, policy) ==> StateAt(db, s, now).Enabled?
  }

  function RunError(db: Db, w: World, owner: Id, room: Id, policy: Id, now: Time): Option<Error>
    requires policy in db.policies
  {
    if !db.policies[policy].status.PolicyActive? then Some(PolicyNotActive)
    else if w.emergencyStop || !AllEnabled(db, owner, room, policy, now) then Some(AutonomyStopped)
    else None
  }

  /** Which permits a revocation reaches. */
  predicate Revocable(db: Db, p: Permit, owner: Option<Id>, room: Option<Id>, policy: Option<Id>) {
    && (owner.None? || p.owner == owner.value)
    && (p.status.Issued? || p.status.Claimed?)
    && (policy.None? || p.policy == policy.value)
    && p.request in db.approvals && (room.None? || db.approvals[p.request].room == room.value)
  }

  function RevokePermits(db: Db, owner: Option<Id>, room: Option<Id>, policy: Option<Id>): Db {
    db.(permits := map id | id in db.permits ::
          if Revocable(db, db.permits[id], owner, room, policy) then db.permits[id].(status := Revoked)
          else db.permits[id])
  }

  predicate IsOver(s: LoopStatus) {
    s.LoopSucceeded? || s.Exhausted? || s.LoopCancelled?
  }

  predicate Stoppable(l: Loop, owner: Option<Id>, room: Option<Id>, policy: Option<Id>) {
    && (owner.None? || l.owner == owner.value)
    && !IsOver(l.status)
    && (room.None? || l.room == room.value)
    && (policy.None? || l.policy == policy.value)
  }

  function StopLoop(l: Loop, state: ControlState): Loop {
    l.(status := if state.Killed? then LoopCancelled else LoopPaused, generation := l.generation + 1)
  }

  function StopLoops(db: Db, state: ControlState, owner: Option<Id>, room: Option<Id>, policy: Option<Id>): Db {
    db.(loops := map id | id in db.loops ::
          if Stoppable(db.loops[id], owner, room, policy) then StopLoop(db.loops[id], state) else db.loops[id])
  }

  function SetControlError(db: Db, scope: Scope, byAdmin: bool): Option<Error> {
    if !byAdmin then Some(NotAdmin)
    else match scope
      case InRoom(owner, room) => if room in db.rooms && db.rooms[room] == owner then None else Some(NotFound)
      case UnderPolicy(owner, policy) =>
        if policy in db.policies && db.policies[policy].owner == owner then None else Some(NotFound)
      case _ => None
  }

  /** Owner, room and policy that a control reaches; None stands for all. */
  function Reach(db: Db, scope: Scope): (Option<Id>, Option<Id>, Option<Id>) {
    match scope
    case Global => (None, None, None)
    case Tenant(owner) => (Some(owner), None, None)
    case InRoom(owner, room) => (Some(owner), Some(room), None)
    case UnderPolicy(owner, policy) =>
      (Some(owner), if policy in db.policies then Some(db.policies[policy].room) else None, Some(policy))
  }

  function WriteControl(db: Db, scope: Scope, state: ControlState, expiresAt: Option<Time>): Db {
    db.(controls := db.controls[scope := Control(state, GenerationOf(db.controls, scope) + 1, expiresAt)])
  }

  function SetControl(db: Db, scope: Scope, byAdmin: bool, state: ControlState, expiresAt: Option<Time>): Db {
    if SetControlError(db, scope, byAdmin).Some? then db
    else
      var (owner, room, policy) := Reach(db, scope);
      var written := WriteControl(db, scope, state, expiresAt);
      if state.Enabled? then written
      else StopLoops(RevokePermits(written, owner, room, policy), state, owner, room, policy)
  }

  /* ---- Policies ---- */

  function UpdatePolicyError(db: Db, owner: Id, id: Id, expectedVersion: int, change: PolicyChange): Option<Error> {
    if !(id in db.policies && db.policies[id].owner == owner) then Some(NotFound)
    else if db.policies[id].version != expectedVersion then Some(VersionConflict)
    else if change.classes == Some({}) then Some(NoClasses)
    else None
  }

  function Or<T>(o: Option<T>, default: T): T {
    if o.Some? then o.value else default
  }

  function ChangedPolicy(p: Policy, change: PolicyChange): Policy {
    p.(status := Or(change.status, p.status), classes := Or(change.classes, p.classes),
       tools := Or(change.tools, p.tools),
       profiles := Or(change.profiles, p.profiles), rules := Or(change.rules, p.rules),
       generation := p.generation + 1, version := p.version + 1)
  }

  function UpdatePolicy(db: Db, owner: Id, id: Id, expectedVersion: int, change: PolicyChange): Db {
    if UpdatePolicyError(db, owner, id, expectedVersion, change).Some? then db
    else RevokePermits(db.(policies := db.policies[id := ChangedPolicy(db.policies[id], change)]), Some(owner), None,
                       Some(id))
  }

  /* ---- Approval requests and votes ---- */

  predicate Executable(p: Policy, kind: Kind) {
    && kind.RunTool? && kind.call.tool in p.tools
    && (kind.call.ShellTool? ==>
        !kind.call.rawArguments && kind.call.profile.Some? && kind.call.profile.value in p.profiles)
  }

  datatype ApprovalRequest = ApprovalRequest(
    owner: Id, actor: Id, policy: Id, command: Id, executor: Id, class_: ActionClass, key: Option<Id>, ttl: int)

  predicate KnownKey(db: Db, owner: Id, key: Option<Id>) {
    key.Some? && exists r :: r in db.approvals && db.approvals[r].owner == owner && db.approvals[r].key == key
  }

  /** The checks made before a key is looked up. */
  function AskError(db: Db, w: World, q: ApprovalRequest, now: Time): Option<Error> {
    if !(q.policy in db.policies && db.policies[q.policy].owner == q.owner) then Some(NotFound)
    else
      var p := db.policies[q.policy];
      if RunError(db, w, q.owner, p.room, q.policy, now).Some? then RunError(db, w, q.owner, p.room, q.policy, now)
      else if !(q.command in db.commands && db.commands[q.command].owner == q.owner) then Some(NotFound)
      else if !(q.executor in w.agents && w.agents[q.executor].owner == q.owner) then Some(NotFound)
      else
        var c := db.commands[q.command];
        if c.envelope.room != p.room || w.agents[q.executor].room != Some(p.room) then Some(RoomMismatch)
        else if c.envelope.target != q.executor then Some(NotTarget)
        else if IsTerminal(c.status) then Some(TerminalCommand)
        else if q.class_ !in p.classes then Some(ClassNotAllowed)
        else if !Executable(p, c.envelope.kind) then Some(NotExecutable)
        else None
  }

  function NewApproval(db: Db, q: ApprovalRequest, now: Time): Approval
    requires q.policy in db.policies && q.command in db.commands
  {
    var p, c := db.policies[q.policy], db.commands[q.command];
    var rule := p.rules.For(q.class_);
    Approval(q.owner, p.room, q.policy, q.command, q.executor, q.class_, c.envelope, rule,
             if rule.quorum == 0 && !rule.requireAdmin then Approved else Open,
             p.generation, q.actor, now + q.ttl, q.key)
  }

  /** An approval is noted on its command. */
  function MarkCommand(db: Db, request: Id): Db
    requires request in db.approvals
  {
    var a := db.approvals[request];
    if a.status.Approved? && a.command in db.commands then
      db.(commands := db.commands[a.command := db.commands[a.command].(approvedBy := Some(request))])
    else db
  }

  function CreateApprovalError(db: Db, w: World, q: ApprovalRequest, id: Id, now: Time): Option<Error> {
    if AskError(db, w, q, now).Some? then AskError(db, w, q, now)
    else if KnownKey(db, q.owner, q.key) then None
    else if !(30 <= q.ttl <= 86400) then Some(BadTtl)
    else if id in db.approvals then Some(IdTaken)
    else None
  }

  function CreateApproval(db: Db, w: World, q: ApprovalRequest, id: Id, now: Time): Db {
    if CreateApprovalError(db, w, q, id, now).Some? || KnownKey(db, q.owner, q.key) then db
    else MarkCommand(db.(approvals := db.approvals[id := NewApproval(db, q, now)]), id)
  }

  /** What listing requests does to those that have run out. */
  function LapseApprovals(db: Db, now: Time): Db {
    db.(approvals := map r | r in db.approvals ::
          if db.approvals[r].status.Open? && db.approvals[r].expiresAt <= now then db.approvals[r].(status := Lapsed)
          else db.approvals[r])
  }

  /** Whether a grant is about the request at all. */
  predicate Concerns(g: Grant, request: Id, a: Approval, subject: Id) {
    && g.owner == a.owner && g.grantee == subject && g.isActive
    && (g.resource == request || g.resource == a.policy || g.resource == a.room)
  }

  function FirstGrant(grants: seq<Grant>, request: Id, a: Approval, subject: Id): Option<Grant> {
    if grants == [] then None
    else if Concerns(grants[0], request, a, subject) then Some(grants[0])
    else FirstGrant(grants[1..], request, a, subject)
  }

  /** Only the first grant that a query happens to return is looked at. */
  predicate CanVote(w: World, request: Id, a: Approval, u: User) {
    || u.subject == a.owner || u.isAdmin
    || (FirstGrant(w.grants, request, a, u.subject).Some?
        && FirstGrant(w.grants, request, a, u.subject).value.mayApprove)
  }

  predicate IsPending(a: Approval, now: Time) {
    a.status.Open? && now < a.expiresAt
  }

  function VoteError(db: Db, w: World, request: Id, u: User, approves: bool, now: Time): Option<Error> {
    if request !in db.approvals then Some(NotFound)
    else
      var a := db.approvals[request];
      if !CanVote(w, request, a, u) then Some(OutsideScope)
      else if !IsPending(a, now) then Some(RequestNotPending)
      else if a.rule.disallowProposer && u.subject == a.createdBy then Some(ProposerMayNotVote)
      else if (request, u.subject) in db.votes && db.votes[(request, u.subject)].approves != approves then
        Some(VotedOtherwise)
      else None
  }

  type Votes = map<(Id, Id), Vote>

  function Approvers(votes: Votes, request: Id): set<Id> {
    set k | k in votes && k.0 == request && votes[k].approves :: k.1
  }

  predicate HasReject(votes: Votes, request: Id) {
    exists k :: k in votes && k.0 == request && !votes[k].approves
  }

  predicate HasAdminApproval(votes: Votes, request: Id) {
    exists k :: k in votes && k.0 == request && votes[k].approves && votes[k].byAdmin
  }

  predicate QuorumMet(votes: Votes, request: Id, rule: Rule) {
    |Approvers(votes, request)| >= rule.quorum && (rule.requireAdmin ==> HasAdminApproval(votes, request))
  }

  /** The status that the votes so far give a pending request. */
  function Decide(db: Db, request: Id): Db
    requires request in db.approvals
  {
    if HasReject(db.votes, request) then
      db.(approvals := db.approvals[request := db.approvals[request].(status := TurnedDown)])
    else if QuorumMet(db.votes, request, db.approvals[request].rule) then
      MarkCommand(db.(approvals := db.approvals[request := db.approvals[request].(status := Approved)]), request)
    else db
  }

  function AddVote(db: Db, request: Id, u: User, approves: bool): Db {
    db.(votes := db.votes[(request, u.subject) := Vote(approves, u.isAdmin)])
  }

  /** Repeating a vote changes nothing. */
  function CastVote(db: Db, w: World, request: Id, u: User, approves: bool, now: Time): Db {
    if VoteError(db, w, request, u, approves, now).Some? || (request, u.subject) in db.votes then db
    else Decide(AddVote(db, request, u, approves), request)
  }

  /* ---- Permits ---- */

  /** The request still stands for the same policy, command and executor. */
  function IntegrityError(db: Db, request: Id): Option<Error>
    requires request in db.approvals
  {
    var a := db.approvals[request];
    if !(a.policy in db.policies && db.policies[a.policy].owner == a.owner) then Some(NotFound)
    else if db.policies[a.policy].generation != a.policyGeneration || !db.policies[a.policy].status.PolicyActive? then
      Some(StalePolicy)
    else if !(a.command in db.commands && db.commands[a.command].owner == a.owner) then Some(NotFound)
    else if db.commands[a.command].envelope != a.payload then Some(PayloadChanged)
    else if db.commands[a.command].envelope.target != a.executor then Some(ExecutorChanged)
    else None
  }

  predicate PermitRuns(p: Permit, now: Time) {
    (p.status.Issued? || p.status.Claimed?) && now < p.expiresAt
  }

  predicate HasPermit(db: Db, request: Id) {
    exists p :: p in db.permits && db.permits[p].request == request
  }

  predicate HasRunningPermit(db: Db, request: Id, now: Time) {
    exists p :: p in db.permits && db.permits[p].request == request && PermitRuns(db.permits[p], now)
  }

  function IssueError(db: Db, w: World, owner: Id, request: Id, ttl: int, id: Id, now: Time): Option<Error> {
    if !(request in db.approvals && db.approvals[request].owner == owner) then Some(NotFound)
    else
      var a := db.approvals[request];
      if !a.status.Approved? then Some(NotApproved)
      else if IntegrityError(db, request).Some? then IntegrityError(db, request)
      else if RunError(db, w, owner, a.room, a.policy, now).Some? then RunError(db, w, owner, a.room, a.policy, now)
      else if HasPermit(db, request) then
        if HasRunningPermit(db, request, now) then None else Some(PermitEnded)
      else if !(30 <= ttl <= 3600) then Some(BadTtl)
      else if a.expiresAt <= now then Some(RequestExpired)
      else if id in db.permits then Some(IdTaken)
      else None
  }

  function NewPermit(db: Db, request: Id, ttl: int, now: Time): Permit
    requires request in db.approvals && db.approvals[request].policy in db.policies
  {
    var a := db.approvals[request];
    Permit(a.owner, request, a.policy, a.command, a.executor, Issued, db.policies[a.policy].generation,
           Generations(db, a.owner, a.room, a.policy), 1, 0, false, Min(a.expiresAt, now + ttl))
  }

  /** A request whose permit is still running gets that permit again. */
  function IssuePermit(db: Db, w: World, owner: Id, request: Id, ttl: int, id: Id, now: Time): Db {
    if IssueError(db, w, owner, request, ttl, id, now).Some? || HasPermit(db, request) then db
    else db.(permits := db.permits[id := NewPermit(db, request, ttl, now)])
  }

  /** What listing permits does to those that have run out. */
  function OutdatePermits(db: Db, now: Time): Db {
    db.(permits := map p | p in db.permits ::
          if (db.permits[p].status.Issued? || db.permits[p].status.Claimed?) && db.permits[p].expiresAt <= now
          then db.permits[p].(status := Outdated) else db.permits[p])
  }

  /** A repeated claim by the same agent is answered at once. */
  predicate AlreadyClaimed(db: Db, owner: Id, permit: Id, executor: Id, now: Time) {
    && permit in db.permits && db.permits[permit].owner == owner && db.permits[permit].executor == executor
    && db.permits[permit].status.Claimed? && now < db.permits[permit].expiresAt
  }

  /** The checks of a claim that still has to be made, on a permit as read. */
  function ClaimError(db: Db, w: World, owner: Id, permit: Id, executor: Id, now: Time): Option<Error> {
    if !(permit in db.permits && db.permits[permit].owner == owner) then Some(NotFound)
    else
      var p := db.permits[permit];
      if !(p.status.Issued? && now < p.expiresAt) then Some(PermitNotActive)
      else if p.executor != executor then Some(WrongExecutor)
      else if p.request !in db.approvals then Some(NotFound)
      else
        var a := db.approvals[p.request];
        if IntegrityError(db, p.request).Some? then IntegrityError(db, p.request)
        else if !(p.policy in db.policies && db.policies[p.policy].owner == owner) then Some(NotFound)
        else if RunError(db, w, owner, a.room, p.policy, now).Some? then RunError(db, w, owner, a.room, p.policy, now)
        else if db.policies[p.policy].generation != p.policyGeneration then Some(StalePolicy)
        else if Generations(db, owner, a.room, p.policy) != p.generations then Some(StaleControl)
        else if !db.commands[a.command].status.Accepted? then Some(CommandNotAccepted)
        else None
  }

  /** First half of a claim: the checks. */
  function ClaimRead(db: Db, w: World, owner: Id, permit: Id, executor: Id, now: Time): Db {
    if ClaimError(db, w, owner, permit, executor, now).Some? then db
    else db.(inFlight := db.inFlight + {Ticket(permit, executor, db.permits[permit].token)})
  }

  predicate Claimable(db: Db, t: Ticket) {
    t.permit in db.permits && db.permits[t.permit].status.Issued? && db.permits[t.permit].token == t.token
  }

  /** Second half: the compare-and-set, which looks only at the status and the token. */
  function ClaimWrite(db: Db, t: Ticket): Db {
    if t !in db.inFlight then db
    else db.(inFlight := db.inFlight - {t},
             permits :=
               if Claimable(db, t) then db.permits[t.permit := MarkClaimed(db.permits[t.permit])] else db.permits)
  }

  function MarkClaimed(p: Permit): Permit {
    p.(status := Claimed, useCount := p.useCount + 1, wasClaimed := true)
  }

  /* ---- Receipts ---- */

  datatype ReceiptRequest = ReceiptRequest(
    owner: Id, permit: Id, executor: Id, token: int, outcome: ReceiptOutcome, key: Option<Id>)

  predicate KnownReceiptKey(db: Db, owner: Id, key: Option<Id>) {
    key.Some? && exists r :: r in db.receipts && db.receipts[r].owner == owner && db.receipts[r].key == key
  }

  function ReceiptError(db: Db, q: ReceiptRequest, id: Id): Option<Error> {
    if !(q.permit in db.permits && db.permits[q.permit].owner == q.owner) then Some(NotFound)
    else
      var p := db.permits[q.permit];
      if p.executor != q.executor then Some(WrongExecutor)
      else if p.token != q.token then Some(StaleToken)
      else if !(p.status.Claimed? || p.status.Revoked?) || !p.wasClaimed then Some(NotClaimed)
      else if id in db.receipts then Some(IdTaken)
      else None
  }

  /** A permit that was revoked after it was claimed can still get its receipt. */
  function RecordReceipt(db: Db, q: ReceiptRequest, id: Id): Db {
    if KnownReceiptKey(db, q.owner, q.key) || ReceiptError(db, q, id).Some? then db
    else
      var p := db.permits[q.permit];
      db.(receipts := db.receipts[id := Receipt(q.owner, q.permit, p.request, p.command, p.executor, q.outcome, q.key)],
          permits := db.permits[q.permit := p.(status := Consumed)])
  }

  /* ---- Commands ---- */

  predicate Addressed(db: Db, owner: Id, agent: Id, command: Id) {
    command in db.commands && db.commands[command].owner == owner && db.commands[command].envelope.target == agent
  }

  function WithStatus(db: Db, command: Id, status: CommandStatus): Db
    requires command in db.commands
  {
    db.(commands := db.commands[command := db.commands[command].(status := status)])
  }

  function AcceptError(db: Db, owner: Id, agent: Id, command: Id): Option<Error> {
    if !Addressed(db, owner, agent, command) then Some(NotFound)
    else
      var c := db.commands[command];
      if !(c.status.Pending? || c.status.Delivered? || c.status.Acknowledged?) then Some(WrongStatus)
      else if c.requiresApproval && c.approvedBy.None? then Some(ApprovalMissing)
      else None
  }

  function AcceptCommand(db: Db, owner: Id, agent: Id, command: Id): Db {
    if AcceptError(db, owner, agent, command).Some? then db else WithStatus(db, command, Accepted)
  }

  function ReceiptsFor(db: Db, owner: Id, command: Id, agent: Id): set<Id> {
    set r | r in db.receipts && db.receipts[r].owner == owner && db.receipts[r].command == command
      && db.receipts[r].executor == agent
  }

  predicate IsPrivileged(c: Command) {
    c.envelope.kind.RunTool? && c.requiresApproval
  }

  function ReceiptsError(db: Db, owner: Id, command: Id, agent: Id, completed: bool): Option<Error> {
    var found := ReceiptsFor(db, owner, command, agent);
    if found == {} then Some(ReceiptMissing)
    else if |found| > 1 then Some(ReceiptsAmbiguous)
    else if completed != (exists r :: r in found && db.receipts[r].outcome.Succeeded?) then Some(OutcomeMismatch)
    else None
  }

  /** A privileged command needs exactly one receipt of its target, and ends as the receipt says. */
  function CompleteError(db: Db, owner: Id, agent: Id, command: Id, completed: bool): Option<Error> {
    if !Addressed(db, owner, agent, command) then Some(NotFound)
    else
      var c := db.commands[command];
      if !c.status.Accepted? then Some(WrongStatus)
      else if IsPrivileged(c) then ReceiptsError(db, owner, command, agent, completed)
      else None
  }

  function CompleteCommand(db: Db, owner: Id, agent: Id, command: Id, completed: bool): Db {
    if CompleteError(db, owner, agent, command, completed).Some? then db
    else WithStatus(db, command, if completed then Completed else Failed)
  }

  function AcknowledgeCommand(db: Db, owner: Id, agent: Id, command: Id): Db {
    if Addressed(db, owner, agent, command)
      && (db.commands[command].status.Pending? || db.commands[command].status.Delivered?)
    then WithStatus(db, command, Acknowledged) else db
  }

  function RejectCommand(db: Db, owner: Id, agent: Id, command: Id): Db {
    if Addressed(db, owner, agent, command) && !IsTerminal(db.commands[command].status) then
      WithStatus(db, command, CommandStatus.Rejected)
    else db
  }

  function CancelCommand(db: Db, owner: Id, issuer: Id, command: Id): Db {
    if command in db.commands && db.commands[command].owner == owner && db.commands[command].envelope.issuer == issuer
       && !IsTerminal(db.commands[command].status)
    then WithStatus(db, command, Cancelled) else db
  }

  /** What listing its commands to an agent does to one of them. */
  function DeliverCommand(db: Db, command: Id, now: Time): Db {
    if command !in db.commands then db
    else
      var c := db.commands[command];
      if c.expiresAt.Some? && c.expiresAt.value <= now && !IsTerminal(c.status) then WithStatus(db, command, Expired)
      else if c.status.Pending? then WithStatus(db, command, Delivered)
      else db
  }

  function IssueCommand(db: Db, owner: Id, envelope: Envelope, requiresApproval: bool, id: Id): Db {
    if id in db.commands then db
    else db.(commands := db.commands[id := Command(owner, envelope, requiresApproval, None, Pending, None)])
  }
}
