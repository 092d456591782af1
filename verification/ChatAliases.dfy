/**
 * Short codes ("aliases") that name chat contexts. A code is leased to one context
 * at a time; when its lease runs out it is quarantined and later released, and only
 * then may another owner get it. Expiry is applied lazily, when a row is next used.
 */
module ChatAliases {
  import opened Common

  datatype AliasStatus = Active | Quarantined | Released | Revoked {
    predicate IsLive() {
      Active? || Quarantined?
    }
  }

  datatype Alias = Alias(
    context: Id, owner: Id, code: Id, generation: nat, status: AliasStatus,
    expiresAt: Time, quarantineUntil: Option<Time>, replacedBy: Option<Id>)

  datatype ContextState = InUse | Dormant | Closed

  /** Which conversation a context belongs to, as a keyed digest of its reference. */
  datatype Binding = Binding(digest: Id, version: nat)

  datatype Context = Context(
    owner: Id, host: Id, state: ContextState, nonce: Option<Id>, generation: nat, binding: Option<Binding>)

  datatype Action =
    | Created | Issued | Renewed(reactivated: bool) | Rotated(previous: Id, replacement: Id)
    | Expired | EnteredQuarantine | LeftQuarantine | Withdrawn | Bound(version: nat)

  datatype Entry = Entry(context: Id, generation: Option<nat>, action: Action)

  datatype Store = Store(contexts: map<Id, Context>, aliases: map<Id, Alias>, log: seq<Entry>)

  /** `threshold` is how much time a lease must have left not to be renewed when used. */
  datatype Config = Config(ttl: nat, threshold: nat, quarantine: nat)

  /** Start-up refuses any other configuration. */
  predicate ValidConfig(cfg: Config) {
    cfg.threshold < cfg.ttl
  }

  datatype Lease = Lease(context: Id, code: Id, generation: nat, expiresAt: Time, rotated: bool)

  datatype Error = NotFound | AliasExpired | ContextClosed | AllocationExhausted | BindingConflict | BindingAmbiguous

  /** What the session holds at the end of a request, and the answer. */
  datatype Outcome = Outcome(store: Store, answer: Result<Lease, Error>)

  const CHATGPT: Id := 0

  /** Foreign keys resolve. */
  ghost predicate Linked(s: Store) {
    forall a :: a in s.aliases ==> s.aliases[a].context in s.contexts
  }

  /* ---- Finding rows ---- */

  ghost predicate Carries(s: Store, a: Id, owner: Id, code: Id) {
    a in s.aliases && s.aliases[a].owner == owner && s.aliases[a].code == code
  }

  ghost function AliasFor(s: Store, owner: Id, code: Id): (r: Option<Id>)
    ensures r.Some? ==> Carries(s, r.value, owner, code)
    ensures r.None? ==> forall a :: !Carries(s, a, owner, code)
  {
    if exists a :: Carries(s, a, owner, code) then
      var a :| Carries(s, a, owner, code);
      Some(a)
    else None
  }

  ghost predicate IsCurrent(s: Store, a: Id, c: Id) {
    a in s.aliases && s.aliases[a].context == c && s.aliases[a].status.Active?
  }

  ghost function CurrentOf(s: Store, c: Id): (r: Option<Id>)
    ensures r.Some? ==> IsCurrent(s, r.value, c)
    ensures r.None? ==> forall a :: !IsCurrent(s, a, c)
  {
    if exists a :: IsCurrent(s, a, c) then
      var a :| IsCurrent(s, a, c);
      Some(a)
    else None
  }

  ghost predicate HoldsCode(s: Store, a: Id, code: Id) {
    a in s.aliases && s.aliases[a].code == code && s.aliases[a].status.IsLive()
  }

  ghost function HolderOf(s: Store, code: Id): (r: Option<Id>)
    ensures r.Some? ==> HoldsCode(s, r.value, code)
    ensures r.None? ==> forall a :: !HoldsCode(s, a, code)
  {
    if exists a :: HoldsCode(s, a, code) then
      var a :| HoldsCode(s, a, code);
      Some(a)
    else None
  }

  ghost predicate IsLatest(s: Store, a: Id, c: Id) {
    && a in s.aliases && s.aliases[a].context == c
    && forall b :: b in s.aliases && s.aliases[b].context == c ==> s.aliases[b].generation <= s.aliases[a].generation
  }

  /* ---- Single transitions ---- */

  function WithState(s: Store, c: Id, state: ContextState): Store
    requires c in s.contexts
  {
    s.(contexts := s.contexts[c := s.contexts[c].(state := state)])
  }

  function Log(s: Store, a: Id, action: Action): Store
    requires a in s.aliases
  {
    s.(log := s.log + [Entry(s.aliases[a].context, Some(s.aliases[a].generation), action)])
  }

  function Update(s: Store, a: Id, al: Alias): Store {
    s.(aliases := s.aliases[a := al])
  }

  /** The context becomes dormant whatever it was before. */
  function ExpireIfDue(cfg: Config, s: Store, a: Id, now: Time): Store
    requires Linked(s) && a in s.aliases
  {
    var al := s.aliases[a];
    if al.status.Active? && al.expiresAt <= now then
      Log(Log(WithState(Update(s, a,
                               al.(status := Quarantined, quarantineUntil := Some(al.expiresAt + cfg.quarantine))),
                        al.context, Dormant), a, Expired), a, EnteredQuarantine)
    else s
  }

  function ReleaseIfDue(s: Store, a: Id, now: Time): Store
    requires a in s.aliases
  {
    var al := s.aliases[a];
    if al.status.Quarantined? && al.quarantineUntil.Some? && al.quarantineUntil.value <= now then
      Log(Update(s, a, al.(status := Released)), a, LeftQuarantine)
    else s
  }

  /** Brings one alias up to date. */
  function Reconcile(cfg: Config, s: Store, a: Id, now: Time): Store
    requires Linked(s) && a in s.aliases
  {
    ReleaseIfDue(ExpireIfDue(cfg, s, a, now), a, now)
  }

  function Renew(cfg: Config, s: Store, a: Id, now: Time, force: bool): Store
    requires Linked(s) && a in s.aliases
  {
    var al := s.aliases[a];
    var used := WithState(s, al.context, InUse);
    if (!force && al.expiresAt - now > cfg.threshold) || now + cfg.ttl <= al.expiresAt then used
    else Log(Update(used, a, al.(expiresAt := now + cfg.ttl)), a, Renewed(false))
  }

  function Reactivate(cfg: Config, s: Store, a: Id, now: Time): Store
    requires Linked(s) && a in s.aliases
  {
    var al := s.aliases[a];
    var revived := al.(status := Active, expiresAt := now + cfg.ttl, quarantineUntil := None);
    Log(WithState(Update(s, a, revived), al.context, InUse), a, Renewed(true))
  }

  function Issue(cfg: Config, s: Store, c: Id, code: Id, newId: Id, now: Time): Store
    requires c in s.contexts
  {
    var generation := s.contexts[c].generation + 1;
    var added := Alias(c, s.contexts[c].owner, code, generation, Active, now + cfg.ttl, None, None);
    var counted := s.(contexts := s.contexts[c := s.contexts[c].(generation := generation, state := InUse)]);
    Log(Update(counted, newId, added), newId, Issued)
  }

  /** Notes on the old alias which one took its place, if that is not yet known. */
  function Replace(s: Store, previous: Id, replacement: Id): Store
    requires previous in s.aliases && replacement in s.aliases
  {
    var al := s.aliases[previous];
    var noted := if al.replacedBy.None? then Update(s, previous, al.(replacedBy := Some(replacement))) else s;
    Log(noted, replacement, Rotated(previous, replacement))
  }

  /* ---- Requests ---- */

  /** Brings the row that holds the code up to date; the live-code index allows one. */
  ghost function ReconcileCode(cfg: Config, s: Store, code: Id, now: Time): Store
    requires Linked(s)
  {
    if HolderOf(s, code).Some? then Reconcile(cfg, s, HolderOf(s, code).value, now) else s
  }

  function LeaseOn(s: Store, a: Id, rotated: bool): Lease
    requires a in s.aliases
  {
    Lease(s.aliases[a].context, s.aliases[a].code, s.aliases[a].generation, s.aliases[a].expiresAt, rotated)
  }

  /** Tries the codes drawn, one per attempt; an empty rest means the budget is used up. */
  ghost function Allocate(cfg: Config, s: Store, c: Id, codes: seq<Id>, newId: Id, now: Time): (r: (Store, bool))
    requires Linked(s) && c in s.contexts
    decreases codes
  {
    if codes == [] then (s, false)
    else
      var checked := ReconcileCode(cfg, s, codes[0], now);
      if AliasFor(checked, s.contexts[c].owner, codes[0]).Some? || HolderOf(checked, codes[0]).Some? then
        Allocate(cfg, checked, c, codes[1..], newId, now)
      else (Issue(cfg, checked, c, codes[0], newId, now), true)
  }

  ghost function Resolve(cfg: Config, s: Store, owner: Id, code: Id, now: Time): Outcome
    requires Linked(s)
  {
    var found := AliasFor(s, owner, code);
    if found.None? then Outcome(s, Failure(NotFound))
    else
      var a := found.value;
      var checked := Reconcile(cfg, s, a, now);
      if checked.contexts[s.aliases[a].context].state.Closed? then Outcome(checked, Failure(ContextClosed))
      else if !checked.aliases[a].status.Active? then Outcome(checked, Failure(AliasExpired))
      else
        var renewed := Renew(cfg, checked, a, now, false);
        Outcome(renewed, Success(LeaseOn(renewed, a, false)))
  }

  predicate MayReactivate(s: Store, a: Id)
    requires Linked(s) && a in s.aliases
  {
    var al := s.aliases[a];
    (al.status.Quarantined? || al.status.Released?) && al.generation == s.contexts[al.context].generation
      && al.replacedBy.None?
  }

  ghost predicate CodeTaken(s: Store, a: Id)
    requires a in s.aliases
  {
    exists b :: b != a && HoldsCode(s, b, s.aliases[a].code)
  }

  /** A new code for the context of an old alias. */
  ghost function Rotate(cfg: Config, s: Store, a: Id, codes: seq<Id>, newId: Id, now: Time): Outcome
    requires Linked(s) && a in s.aliases
  {
    var (issued, ok) := Allocate(cfg, s, s.aliases[a].context, codes, newId, now);
    if !ok then Outcome(issued, Failure(AllocationExhausted))
    else
      AllocatedKeepsRows(cfg, s, s.aliases[a].context, codes, newId, now);
      var replaced := Replace(issued, a, newId);
      Outcome(replaced, Success(LeaseOn(replaced, newId, true)))
  }

  /** The second half of a refresh, when the context has no active alias left. */
  ghost function Revive(cfg: Config, s: Store, a: Id, codes: seq<Id>, newId: Id, now: Time): Outcome
    requires Linked(s) && a in s.aliases
  {
    var checked := ReconcileCode(cfg, s, s.aliases[a].code, now);
    if !CodeTaken(checked, a) && MayReactivate(checked, a) then
      var revived := Reactivate(cfg, checked, a, now);
      Outcome(revived, Success(LeaseOn(revived, a, false)))
    else
      Rotate(cfg, checked, a, codes, newId, now)
  }

  /** The steps of a refresh after the old alias has been brought up to date. */
  ghost function RefreshSettled(cfg: Config, t: Store, a: Id, codes: seq<Id>, newId: Id, now: Time): Outcome
    requires Linked(t) && a in t.aliases
  {
    var current := CurrentOf(t, t.aliases[a].context);
    if current.None? then Revive(cfg, t, a, codes, newId, now)
    else
      var again := Reconcile(cfg, t, current.value, now);
      if again.aliases[current.value].status.Active? then
        var renewed := Renew(cfg, again, current.value, now, true);
        Outcome(renewed, Success(LeaseOn(renewed, current.value, current.value != a)))
      else Revive(cfg, again, a, codes, newId, now)
  }

  ghost function Refresh(cfg: Config, s: Store, owner: Id, code: Id, codes: seq<Id>, newId: Id, now: Time): Outcome
    requires Linked(s)
  {
    var found := AliasFor(s, owner, code);
    if found.None? then Outcome(s, Failure(NotFound))
    else
      var a := found.value;
      var c := s.aliases[a].context;
      if s.contexts[c].state.Closed? then Outcome(s, Failure(ContextClosed))
      else
        RefreshSettled(cfg, Reconcile(cfg, s, a, now), a, codes, newId, now)
  }

  /** A lease on the context, by whatever alias is current or can be made current. */
  ghost function EnsureAlias(cfg: Config, s: Store, c: Id, codes: seq<Id>, newId: Id, now: Time): Outcome
    requires Linked(s) && c in s.contexts
  {
    if s.contexts[c].state.Closed? then Outcome(s, Failure(ContextClosed))
    else
      var current := CurrentOf(s, c);
      var checked := if current.Some? then Reconcile(cfg, s, current.value, now) else s;
      if current.Some? && checked.aliases[current.value].status.Active? then
        var renewed := Renew(cfg, checked, current.value, now, false);
        Outcome(renewed, Success(LeaseOn(renewed, current.value, false)))
      else EnsureRest(cfg, checked, c, s.contexts[c].owner, codes, newId, now)
  }

  /** Without an active alias the newest one is refreshed. */
  ghost function EnsureRest(cfg: Config, s: Store, c: Id, owner: Id, codes: seq<Id>, newId: Id, now: Time): Outcome
    requires Linked(s) && c in s.contexts
  {
    if exists a :: IsLatest(s, a, c) then
      var a :| IsLatest(s, a, c);
      Refresh(cfg, s, owner, s.aliases[a].code, codes, newId, now)
    else FirstAlias(cfg, s, c, codes, newId, now)
  }

  ghost function FirstAlias(cfg: Config, s: Store, c: Id, codes: seq<Id>, newId: Id, now: Time): Outcome
    requires Linked(s) && c in s.contexts
  {
    var (issued, ok) := Allocate(cfg, s, c, codes, newId, now);
    if ok then
      AllocatedKeepsRows(cfg, s, c, codes, newId, now);
      Outcome(issued, Success(LeaseOn(issued, newId, false)))
    else Outcome(issued, Failure(AllocationExhausted))
  }

  /** A new context with its first alias, or the context already made under the same nonce. */
  ghost function CreateContext(cfg: Config, s: Store, owner: Id, nonce: Option<Id>, codes: seq<Id>, newContext: Id,
                               newAlias: Id, now: Time): Outcome
    requires Linked(s)
  {
    if nonce.Some? && exists c :: c in s.contexts && s.contexts[c].owner == owner && s.contexts[c].nonce == nonce then
      var c :| c in s.contexts && s.contexts[c].owner == owner && s.contexts[c].nonce == nonce;
      EnsureAlias(cfg, s, c, codes, newAlias, now)
    else FirstAlias(cfg, AddContext(s, owner, nonce, newContext), newContext, codes, newAlias, now)
  }

  function AddContext(s: Store, owner: Id, nonce: Option<Id>, newContext: Id): Store {
    s.(contexts := s.contexts[newContext := Context(owner, CHATGPT, InUse, nonce, 0, None)],
       log := s.log + [Entry(newContext, None, Created)])
  }

  lemma {:induction false} AllocatedKeepsRows(cfg: Config, s: Store, c: Id, codes: seq<Id>, newId: Id, now: Time)
    requires Linked(s) && c in s.contexts
    ensures var r := Allocate(cfg, s, c, codes, newId, now);
            && Linked(r.0) && s.contexts.Keys <= r.0.contexts.Keys && s.aliases.Keys <= r.0.aliases.Keys
            && (r.1 ==> newId in r.0.aliases)
    decreases codes
  {
    if codes != [] {
      var checked := ReconcileCode(cfg, s, codes[0], now);
      AllocatedKeepsRows(cfg, checked, c, codes[1..], newId, now);
    }
  }
}
