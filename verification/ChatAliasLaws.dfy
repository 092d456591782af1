/**
 * What every request keeps true of contexts, aliases and the event log, and what
 * follows for whole runs under a clock that never goes back.
 */
module ChatAliasLaws {
  import opened Common
  import opened ChatAliases

  /* ---- The event log as the history of statuses ---- */

  function StatusAfter(action: Action): Option<AliasStatus> {
    match action
    case Issued => Some(Active)
    case Renewed(_) => Some(Active)
    case EnteredQuarantine => Some(Quarantined)
    case LeftQuarantine => Some(Released)
    case Withdrawn => Some(Revoked)
    case _ => None
  }

  predicate Affects(e: Entry, c: Id, generation: nat) {
    e.context == c && e.generation == Some(generation) && StatusAfter(e.action).Some?
  }

  /** The status of the alias of context c with this generation, read off the log alone. */
  function LastStatus(log: seq<Entry>, c: Id, generation: nat): Option<AliasStatus> {
    if log == [] then None
    else if Affects(log[|log| - 1], c, generation) then StatusAfter(log[|log| - 1].action)
    else LastStatus(log[..|log| - 1], c, generation)
  }

  lemma LastStatusAppended(log: seq<Entry>, e: Entry, c: Id, generation: nat)
    ensures LastStatus(log + [e], c, generation)
         == if Affects(e, c, generation) then StatusAfter(e.action) else LastStatus(log, c, generation)
  {
    assert (log + [e])[..|log|] == log;
  }

  lemma {:induction false} LastStatusUnaffected(log: seq<Entry>, tail: seq<Entry>, c: Id, generation: nat)
    requires forall e :: e in tail ==> !Affects(e, c, generation)
    ensures LastStatus(log + tail, c, generation) == LastStatus(log, c, generation)
  {
    if tail == [] {
      assert log + tail == log;
    } else {
      var e, rest := tail[|tail| - 1], tail[..|tail| - 1];
      assert log + tail == (log + rest) + [e];
      LastStatusAppended(log + rest, e, c, generation);
      LastStatusUnaffected(log, rest, c, generation);
    }
  }

  /* ---- The invariant ---- */

  ghost predicate AliasOk(cfg: Config, s: Store, a: Id, clock: Time)
    requires a in s.aliases
  {
    var al := s.aliases[a];
    && al.context in s.contexts && al.owner == s.contexts[al.context].owner
    && 1 <= al.generation <= s.contexts[al.context].generation
    && LastStatus(s.log, al.context, al.generation) == Some(al.status)
    && TimesOk(cfg, al, s.contexts[al.context].generation, clock)
  }

  predicate TimesOk(cfg: Config, al: Alias, latest: nat, clock: Time) {
    match al.status
    case Active => al.generation == latest && al.quarantineUntil.None? && al.expiresAt <= clock + cfg.ttl
    case Quarantined => al.expiresAt <= clock && al.quarantineUntil == Some(al.expiresAt + cfg.quarantine)
    case Released => al.expiresAt + cfg.quarantine <= clock && al.quarantineUntil == Some(al.expiresAt + cfg.quarantine)
    case Revoked => true
  }

  /** No owner has a code twice, no code is live twice, no generation is used twice. */
  predicate Apart(x: Alias, y: Alias) {
    && !(x.owner == y.owner && x.code == y.code)
    && !(x.status.IsLive() && y.status.IsLive() && x.code == y.code)
    && !(x.context == y.context && x.generation == y.generation)
  }

  ghost predicate HasGeneration(s: Store, c: Id, g: nat) {
    exists a :: a in s.aliases && s.aliases[a].context == c && s.aliases[a].generation == g
  }

  ghost predicate Inv(cfg: Config, s: Store, clock: Time) {
    && (forall a :: a in s.aliases ==> AliasOk(cfg, s, a, clock))
    && (forall a, b :: a in s.aliases && b in s.aliases && a != b ==> Apart(s.aliases[a], s.aliases[b]))
    && forall c, g: nat :: c in s.contexts && 1 <= g <= s.contexts[c].generation ==> HasGeneration(s, c, g)
  }

  lemma InvLater(cfg: Config, s: Store, clock: Time, later: Time)
    requires Inv(cfg, s, clock) && clock <= later
    ensures Inv(cfg, s, later)
  {
  }

  lemma InvLinks(cfg: Config, s: Store, clock: Time)
    requires Inv(cfg, s, clock)
    ensures Linked(s)
  {
  }

  /* ---- What never goes back ---- */

  predicate ContextAdvances(x: Context, y: Context) {
    && y.owner == x.owner && y.host == x.host && y.nonce == x.nonce
    && x.generation <= y.generation
    && (x.binding.Some? ==> y.binding == x.binding)
  }

  /** An alias names its context for ever and its expiry never moves back. */
  predicate AliasAdvances(x: Alias, y: Alias) {
    && y.context == x.context && y.owner == x.owner && y.code == x.code && y.generation == x.generation
    && x.expiresAt <= y.expiresAt
    && (x.status.Revoked? ==> y.status.Revoked?)
    && (x.replacedBy.Some? ==> y.replacedBy == x.replacedBy)
  }

  ghost predicate ClosedForGood(s: Store, c: Id) {
    c in s.contexts && s.contexts[c].state.Closed? && forall a :: !IsCurrent(s, a, c)
  }

  ghost predicate Advances(s: Store, t: Store) {
    && (forall c :: c in s.contexts ==> c in t.contexts && ContextAdvances(s.contexts[c], t.contexts[c]))
    && (forall a :: a in s.aliases ==> a in t.aliases && AliasAdvances(s.aliases[a], t.aliases[a]))
    && forall c :: ClosedForGood(s, c) ==> ClosedForGood(t, c)
  }

  predicate SameNonce(x: Context, y: Context) {
    x.owner == y.owner && x.nonce.Some? && x.nonce == y.nonce
  }

  /** No context is closed and none is bound; a new one has a nonce of its own. */
  ghost predicate LeavesAlone(s: Store, t: Store) {
    forall c :: c in t.contexts ==>
      if c in s.contexts then
        && (t.contexts[c].state.Closed? ==> s.contexts[c].state.Closed?)
        && t.contexts[c].binding == s.contexts[c].binding
      else
        && t.contexts[c].binding.None? && t.contexts[c].host == CHATGPT
        && forall d :: d in t.contexts && d != c ==> !SameNonce(t.contexts[c], t.contexts[d])
  }

  ghost predicate Works(s: Store, t: Store) {
    Advances(s, t) && LeavesAlone(s, t)
  }

  lemma WorksTransitive(s: Store, t: Store, u: Store)
    requires Works(s, t) && Works(t, u)
    ensures Works(s, u)
  {
    hide ClosedForGood;
    forall c | c in s.contexts ensures c in u.contexts && ContextAdvances(s.contexts[c], u.contexts[c]) {
      assert ContextAdvances(s.contexts[c], t.contexts[c]);
    }
    forall a | a in s.aliases ensures a in u.aliases && AliasAdvances(s.aliases[a], u.aliases[a]) {
      assert AliasAdvances(s.aliases[a], t.aliases[a]);
    }
  }

  lemma WorksReflexive(s: Store)
    ensures Works(s, s)
  {
  }

  /* ---- Single transitions ---- */

  /** t differs from s in one alias, in the state of its context, and in log entries that concern only that alias. */
  ghost predicate OnlyTouches(s: Store, t: Store, a: Id, tail: seq<Entry>) {
    && a in s.aliases && a in t.aliases && t.aliases == s.aliases[a := t.aliases[a]]
    && AliasAdvances(s.aliases[a], t.aliases[a])
    && t.contexts.Keys == s.contexts.Keys
    && (forall c :: c in s.contexts ==> t.contexts[c] == s.contexts[c].(state := t.contexts[c].state))
    && (forall c :: c in s.contexts && c != s.aliases[a].context ==> t.contexts[c] == s.contexts[c])
    && t.log == s.log + tail
    && forall e ::
       e in tail && StatusAfter(e.action).Some? ==>
         e.context == s.aliases[a].context && e.generation == Some(s.aliases[a].generation)
  }

  lemma TouchKeepsInv(cfg: Config, s: Store, t: Store, a: Id, tail: seq<Entry>, clock: Time)
    requires Inv(cfg, s, clock) && OnlyTouches(s, t, a, tail) && AliasOk(cfg, t, a, clock)
    requires t.aliases[a].status.IsLive() ==> forall b :: b != a ==> !HoldsCode(s, b, s.aliases[a].code)
    ensures Inv(cfg, t, clock)
  {
    hide LastStatus, Works;
    forall b | b in t.aliases && b != a
      ensures AliasOk(cfg, t, b, clock) && Apart(t.aliases[a], t.aliases[b]) && Apart(t.aliases[b], t.aliases[a])
    {
      assert Apart(s.aliases[a], s.aliases[b]) && Apart(s.aliases[b], s.aliases[a]) && AliasOk(cfg, s, b, clock);
      assert t.aliases[a].status.IsLive() ==> !HoldsCode(s, b, s.aliases[a].code);
      assert t.contexts[s.aliases[b].context].generation == s.contexts[s.aliases[b].context].generation;
      LastStatusUnaffected(s.log, tail, s.aliases[b].context, s.aliases[b].generation);
    }
    TouchKeepsGenerations(s, t, a, tail);
  }

  lemma TouchKeepsGenerations(s: Store, t: Store, a: Id, tail: seq<Entry>)
    requires OnlyTouches(s, t, a, tail)
    requires forall c, g: nat :: c in s.contexts && 1 <= g <= s.contexts[c].generation ==> HasGeneration(s, c, g)
    ensures forall c, g: nat :: c in t.contexts && 1 <= g <= t.contexts[c].generation ==> HasGeneration(t, c, g)
  {
    forall c, g: nat | c in t.contexts && 1 <= g <= t.contexts[c].generation ensures HasGeneration(t, c, g) {
      assert t.contexts[c] == s.contexts[c].(state := t.contexts[c].state);
      assert HasGeneration(s, c, g);
      var b :| b in s.aliases && s.aliases[b].context == c && s.aliases[b].generation == g;
      assert b in t.aliases && t.aliases[b].context == c && t.aliases[b].generation == g;
    }
  }

  /** A transition may put a context to use only if it is not closed or still has an active alias. */
  lemma TouchWorks(s: Store, t: Store, a: Id, tail: seq<Entry>)
    requires OnlyTouches(s, t, a, tail) && Linked(s)
    requires var c := s.aliases[a].context;
             && (t.contexts[c].state.Closed? ==> s.contexts[c].state.Closed?)
             && (|| !s.contexts[c].state.Closed? || s.aliases[a].status.Active?
                 || (t.contexts[c].state.Closed? && !t.aliases[a].status.Active?))
    ensures Works(s, t)
  {
    forall c | c in s.contexts ensures c in t.contexts && ContextAdvances(s.contexts[c], t.contexts[c]) {
      assert t.contexts[c] == s.contexts[c].(state := t.contexts[c].state);
    }
    forall c | ClosedForGood(s, c) ensures ClosedForGood(t, c) {
      assert !IsCurrent(s, a, c);
      forall b ensures !IsCurrent(t, b, c) {
        assert !IsCurrent(s, b, c);
      }
    }
  }

  lemma OthersHoldNoCode(cfg: Config, s: Store, a: Id, clock: Time)
    requires Inv(cfg, s, clock) && a in s.aliases && s.aliases[a].status.IsLive()
    ensures forall b :: b != a ==> !HoldsCode(s, b, s.aliases[a].code)
  {
    forall b | b != a ensures !HoldsCode(s, b, s.aliases[a].code) {
      if b in s.aliases {
        assert Apart(s.aliases[a], s.aliases[b]);
      }
    }
  }

  lemma ExpireKeepsInv(cfg: Config, s: Store, a: Id, now: Time)
    requires Inv(cfg, s, now) && a in s.aliases
    ensures Inv(cfg, ExpireIfDue(cfg, s, a, now), now) && Works(s, ExpireIfDue(cfg, s, a, now))
  {
    hide LastStatus, Works;
    var t := ExpireIfDue(cfg, s, a, now);
    var al := s.aliases[a];
    assert AliasOk(cfg, s, a, now);
    WorksReflexive(s);
    if al.status.Active? && al.expiresAt <= now {
      var e1, e2 :=
        Entry(al.context, Some(al.generation), Expired), Entry(al.context, Some(al.generation), EnteredQuarantine);
      assert t.log == (s.log + [e1]) + [e2] == s.log + [e1, e2];
      LastStatusAppended(s.log + [e1], e2, al.context, al.generation);
      OthersHoldNoCode(cfg, s, a, now);
      TouchKeepsInv(cfg, s, t, a, [e1, e2], now);
      TouchWorks(s, t, a, [e1, e2]);
    }
  }

  lemma ReleaseKeepsInv(cfg: Config, s: Store, a: Id, now: Time)
    requires Inv(cfg, s, now) && a in s.aliases
    ensures Inv(cfg, ReleaseIfDue(s, a, now), now) && Works(s, ReleaseIfDue(s, a, now))
  {
    hide LastStatus, Works;
    var t := ReleaseIfDue(s, a, now);
    var al := s.aliases[a];
    assert AliasOk(cfg, s, a, now);
    WorksReflexive(s);
    if t != s {
      var e := Entry(al.context, Some(al.generation), LeftQuarantine);
      LastStatusAppended(s.log, e, al.context, al.generation);
      TouchKeepsInv(cfg, s, t, a, [e], now);
      TouchWorks(s, t, a, [e]);
    }
  }

  lemma ReconcileWorks(cfg: Config, s: Store, a: Id, now: Time)
    requires Inv(cfg, s, now) && Linked(s) && a in s.aliases
    ensures Inv(cfg, Reconcile(cfg, s, a, now), now) && Works(s, Reconcile(cfg, s, a, now))
  {
    hide Inv, Works, ExpireIfDue, ReleaseIfDue;
    var t := ExpireIfDue(cfg, s, a, now);
    ExpireKeepsInv(cfg, s, a, now);
    assert a in t.aliases by { ExpireKeepsRows(cfg, s, a, now); }
    ReleaseKeepsInv(cfg, t, a, now);
    WorksTransitive(s, t, ReleaseIfDue(t, a, now));
  }

  lemma ExpireKeepsRows(cfg: Config, s: Store, a: Id, now: Time)
    requires Linked(s) && a in s.aliases
    ensures a in ExpireIfDue(cfg, s, a, now).aliases
  {
  }

  lemma RenewWorks(cfg: Config, s: Store, a: Id, now: Time, force: bool)
    requires Inv(cfg, s, now) && Linked(s) && a in s.aliases && s.aliases[a].status.Active?
    ensures Inv(cfg, Renew(cfg, s, a, now, force), now) && Works(s, Renew(cfg, s, a, now, force))
  {
    hide LastStatus, Works;
    var t := Renew(cfg, s, a, now, force);
    var al := s.aliases[a];
    assert AliasOk(cfg, s, a, now);
    assert IsCurrent(s, a, al.context);
    OthersHoldNoCode(cfg, s, a, now);
    if t.log == s.log {
      assert t.log == s.log + [];
      TouchKeepsInv(cfg, s, t, a, [], now);
      TouchWorks(s, t, a, []);
    } else {
      var e := Entry(al.context, Some(al.generation), Renewed(false));
      LastStatusAppended(s.log, e, al.context, al.generation);
      TouchKeepsInv(cfg, s, t, a, [e], now);
      TouchWorks(s, t, a, [e]);
    }
  }

  lemma ReactivateWorks(cfg: Config, s: Store, a: Id, now: Time)
    requires Inv(cfg, s, now) && Linked(s) && a in s.aliases && MayReactivate(s, a) && !CodeTaken(s, a)
    requires !s.contexts[s.aliases[a].context].state.Closed?
    ensures Inv(cfg, Reactivate(cfg, s, a, now), now) && Works(s, Reactivate(cfg, s, a, now))
  {
    hide LastStatus, Works;
    var t := Reactivate(cfg, s, a, now);
    var al := s.aliases[a];
    assert AliasOk(cfg, s, a, now);
    var e := Entry(al.context, Some(al.generation), Renewed(true));
    LastStatusAppended(s.log, e, al.context, al.generation);
    TouchKeepsInv(cfg, s, t, a, [e], now);
    TouchWorks(s, t, a, [e]);
  }

  lemma ReplaceWorks(cfg: Config, s: Store, previous: Id, replacement: Id, now: Time)
    requires Inv(cfg, s, now) && Linked(s) && previous in s.aliases && replacement in s.aliases
    ensures Inv(cfg, Replace(s, previous, replacement), now) && Works(s, Replace(s, previous, replacement))
  {
    hide LastStatus, Works;
    var t := Replace(s, previous, replacement);
    var al := s.aliases[previous];
    assert AliasOk(cfg, s, previous, now);
    var e :=
      Entry(s.aliases[replacement].context, Some(s.aliases[replacement].generation), Rotated(previous, replacement));
    LastStatusAppended(s.log, e, al.context, al.generation);
    assert t.log == s.log + [e];
    if al.status.IsLive() {
      OthersHoldNoCode(cfg, s, previous, now);
    }
    TouchKeepsInv(cfg, s, t, previous, [e], now);
    TouchWorks(s, t, previous, [e]);
  }

  lemma IssueKeepsInv(cfg: Config, s: Store, c: Id, code: Id, newId: Id, now: Time)
    requires Inv(cfg, s, now) && c in s.contexts && newId !in s.aliases
    requires CurrentOf(s, c).None? && AliasFor(s, s.contexts[c].owner, code).None? && HolderOf(s, code).None?
    ensures Inv(cfg, Issue(cfg, s, c, code, newId, now), now)
  {
    hide LastStatus;
    var t := Issue(cfg, s, c, code, newId, now);
    var e := Entry(c, Some(s.contexts[c].generation + 1), Issued);
    LastStatusAppended(s.log, e, c, s.contexts[c].generation + 1);
    forall a | a in s.aliases
      ensures AliasOk(cfg, t, a, now) && Apart(t.aliases[newId], t.aliases[a]) && Apart(t.aliases[a], t.aliases[newId])
    {
      assert AliasOk(cfg, s, a, now);
      assert !IsCurrent(s, a, c) && !Carries(s, a, s.contexts[c].owner, code) && !HoldsCode(s, a, code);
      LastStatusAppended(s.log, e, s.aliases[a].context, s.aliases[a].generation);
    }
    IssueKeepsGenerations(cfg, s, c, code, newId, now);
  }

  lemma IssueKeepsGenerations(cfg: Config, s: Store, c: Id, code: Id, newId: Id, now: Time)
    requires c in s.contexts && newId !in s.aliases
    requires forall d, g: nat :: d in s.contexts && 1 <= g <= s.contexts[d].generation ==> HasGeneration(s, d, g)
    ensures var t := Issue(cfg, s, c, code, newId, now);
            forall d, g: nat :: d in t.contexts && 1 <= g <= t.contexts[d].generation ==> HasGeneration(t, d, g)
  {
    var t := Issue(cfg, s, c, code, newId, now);
    forall d, g: nat | d in t.contexts && 1 <= g <= t.contexts[d].generation ensures HasGeneration(t, d, g) {
      if d == c && g == t.contexts[c].generation {
        assert newId in t.aliases && t.aliases[newId].generation == g;
      } else {
        assert HasGeneration(s, d, g);
        var b :| b in s.aliases && s.aliases[b].context == d && s.aliases[b].generation == g;
        assert b in t.aliases && t.aliases[b] == s.aliases[b];
      }
    }
  }

  lemma IssueWorks(cfg: Config, s: Store, c: Id, code: Id, newId: Id, now: Time)
    requires c in s.contexts && !s.contexts[c].state.Closed? && newId !in s.aliases
    ensures Works(s, Issue(cfg, s, c, code, newId, now))
  {
    var t := Issue(cfg, s, c, code, newId, now);
    forall d | ClosedForGood(s, d) ensures ClosedForGood(t, d) {
      forall b ensures !IsCurrent(t, b, d) {
        assert !IsCurrent(s, b, d);
      }
    }
  }

  /* ---- Requests ---- */

  /** Rows are brought up to date, and none becomes active by that. */
  ghost predicate Settles(s: Store, t: Store) {
    && s.aliases.Keys == t.aliases.Keys && s.contexts.Keys == t.contexts.Keys
    && forall a, c :: IsCurrent(t, a, c) ==> IsCurrent(s, a, c)
  }

  lemma ReconcileSettles(cfg: Config, s: Store, a: Id, now: Time)
    requires Linked(s) && a in s.aliases
    ensures Settles(s, Reconcile(cfg, s, a, now))
  {
  }

  lemma ReconcileCodeWorks(cfg: Config, s: Store, code: Id, now: Time)
    requires Inv(cfg, s, now) && Linked(s)
    ensures var t := ReconcileCode(cfg, s, code, now);
            Inv(cfg, t, now) && Linked(t) && Works(s, t) && Settles(s, t)
  {
    hide Inv, Works, Reconcile;
    WorksReflexive(s);
    var holder := HolderOf(s, code);
    if holder.Some? {
      ReconcileWorks(cfg, s, holder.value, now);
      ReconcileSettles(cfg, s, holder.value, now);
      InvLinks(cfg, Reconcile(cfg, s, holder.value, now), now);
    }
  }

  lemma SettledStaysOpen(s: Store, t: Store, c: Id)
    requires Works(s, t) && Settles(s, t) && c in s.contexts && !s.contexts[c].state.Closed? && CurrentOf(s, c).None?
    ensures c in t.contexts && !t.contexts[c].state.Closed? && CurrentOf(t, c).None?
            && t.contexts[c].owner == s.contexts[c].owner
  {
    forall a ensures !IsCurrent(t, a, c) {
      assert !IsCurrent(s, a, c);
    }
    assert ContextAdvances(s.contexts[c], t.contexts[c]);
  }

  /** After an allocation the new alias is its context's active one, for a whole lease from now. */
  ghost predicate Fresh(cfg: Config, t: Store, c: Id, newId: Id, now: Time) {
    && IsCurrent(t, newId, c) && t.aliases[newId].expiresAt == now + cfg.ttl
    && c in t.contexts && t.contexts[c].state.InUse?
  }

  lemma {:induction false} AllocateWorks(cfg: Config, s: Store, c: Id, codes: seq<Id>, newId: Id, now: Time)
    requires Inv(cfg, s, now) && Linked(s) && c in s.contexts && newId !in s.aliases
    requires !s.contexts[c].state.Closed? && CurrentOf(s, c).None?
    ensures var r := Allocate(cfg, s, c, codes, newId, now);
            && Inv(cfg, r.0, now) && Linked(r.0) && Works(s, r.0)
            && (r.1 ==> Fresh(cfg, r.0, c, newId, now))
    decreases codes
  {
    hide Inv, Works, Reconcile, ReconcileCode;
    if codes == [] {
      WorksReflexive(s);
    } else {
      var t := ReconcileCode(cfg, s, codes[0], now);
      ReconcileCodeWorks(cfg, s, codes[0], now);
      SettledStaysOpen(s, t, c);
      var owner := s.contexts[c].owner;
      if AliasFor(t, owner, codes[0]).Some? || HolderOf(t, codes[0]).Some? {
        AllocateWorks(cfg, t, c, codes[1..], newId, now);
        WorksTransitive(s, t, Allocate(cfg, t, c, codes[1..], newId, now).0);
      } else {
        IssueKeepsInv(cfg, t, c, codes[0], newId, now);
        IssueWorks(cfg, t, c, codes[0], newId, now);
        InvLinks(cfg, Issue(cfg, t, c, codes[0], newId, now), now);
        WorksTransitive(s, t, Issue(cfg, t, c, codes[0], newId, now));
      }
    }
  }

  /**
   * The lease is on an active alias, with more than the threshold and at most a whole
   * lease time left, and its context is in use.
   */
  ghost predicate Granted(cfg: Config, t: Store, l: Lease, now: Time) {
    && (exists a :: IsCurrent(t, a, l.context) && LeaseOn(t, a, l.rotated) == l)
    && cfg.threshold < l.expiresAt - now <= cfg.ttl
    && l.context in t.contexts && t.contexts[l.context].state.InUse?
  }

  /** What every request guarantees, whatever its answer. */
  ghost predicate Served(cfg: Config, s: Store, o: Outcome, now: Time) {
    && Inv(cfg, o.store, now) && Linked(o.store) && Works(s, o.store)
    && (o.answer.Success? ==> Granted(cfg, o.store, o.answer.value, now))
  }

  lemma ServedAfter(cfg: Config, s: Store, t: Store, o: Outcome, now: Time)
    requires Works(s, t) && Served(cfg, t, o, now)
    ensures Served(cfg, s, o, now)
  {
    hide Works, Inv;
    WorksTransitive(s, t, o.store);
  }

  lemma RenewGrants(cfg: Config, s: Store, a: Id, now: Time, force: bool, rotated: bool)
    requires ValidConfig(cfg) && Inv(cfg, s, now) && Linked(s) && a in s.aliases && s.aliases[a].status.Active?
    ensures var t := Renew(cfg, s, a, now, force);
            Served(cfg, s, Outcome(t, Success(LeaseOn(t, a, rotated))), now)
  {
    var t := Renew(cfg, s, a, now, force);
    RenewWorks(cfg, s, a, now, force);
    InvLinks(cfg, t, now);
    assert AliasOk(cfg, s, a, now) && IsCurrent(t, a, s.aliases[a].context);
    hide Inv, Works;
  }

  lemma OneCurrent(cfg: Config, s: Store, a: Id, b: Id, c: Id, clock: Time)
    requires Inv(cfg, s, clock) && IsCurrent(s, a, c) && IsCurrent(s, b, c)
    ensures a == b
  {
    assert AliasOk(cfg, s, a, clock) && AliasOk(cfg, s, b, clock);
  }

  lemma ReviveServes(cfg: Config, s: Store, a: Id, codes: seq<Id>, newId: Id, now: Time)
    requires ValidConfig(cfg) && Inv(cfg, s, now) && Linked(s) && a in s.aliases && newId !in s.aliases
    requires !s.contexts[s.aliases[a].context].state.Closed? && CurrentOf(s, s.aliases[a].context).None?
    ensures Served(cfg, s, Revive(cfg, s, a, codes, newId, now), now)
  {
    hide Inv, Works, ReconcileCode, Allocate, CodeTaken;
    var c := s.aliases[a].context;
    var t := ReconcileCode(cfg, s, s.aliases[a].code, now);
    ReconcileCodeWorks(cfg, s, s.aliases[a].code, now);
    SettledStaysOpen(s, t, c);
    assert a in t.aliases && t.aliases[a].context == c by { RowStays(s, t, a); }
    ReviveSettledServes(cfg, s, t, a, codes, newId, now);
  }

  lemma RowStays(s: Store, t: Store, a: Id)
    requires Works(s, t) && a in s.aliases
    ensures a in t.aliases && t.aliases[a].context == s.aliases[a].context
  {
  }

  lemma RotateServes(cfg: Config, t: Store, a: Id, codes: seq<Id>, newId: Id, now: Time)
    requires ValidConfig(cfg) && Inv(cfg, t, now) && Linked(t) && a in t.aliases && newId !in t.aliases
    requires !t.contexts[t.aliases[a].context].state.Closed? && CurrentOf(t, t.aliases[a].context).None?
    ensures Served(cfg, t, Rotate(cfg, t, a, codes, newId, now), now)
  {
    hide Inv, Works, Allocate;
    var c := t.aliases[a].context;
    AllocateWorks(cfg, t, c, codes, newId, now);
    var (u, ok) := Allocate(cfg, t, c, codes, newId, now);
    if ok {
      AllocatedKeepsRows(cfg, t, c, codes, newId, now);
      var v := Replace(u, a, newId);
      ReplaceWorks(cfg, u, a, newId, now);
      InvLinks(cfg, v, now);
      WorksTransitive(t, u, v);
      assert IsCurrent(v, newId, c);
    }
  }

  lemma ReviveSettledServes(cfg: Config, s: Store, t: Store, a: Id, codes: seq<Id>, newId: Id, now: Time)
    requires ValidConfig(cfg) && Linked(s) && a in s.aliases && newId !in s.aliases
    requires t == ReconcileCode(cfg, s, s.aliases[a].code, now) && Settles(s, t) && Works(s, t)
    requires Inv(cfg, t, now) && Linked(t) && a in t.aliases && t.aliases[a].context == s.aliases[a].context
    requires !t.contexts[t.aliases[a].context].state.Closed? && CurrentOf(t, t.aliases[a].context).None?
    ensures Served(cfg, s, Revive(cfg, s, a, codes, newId, now), now)
  {
    hide Inv, Works, ReconcileCode, Rotate, CodeTaken;
    var c := s.aliases[a].context;
    if !CodeTaken(t, a) && MayReactivate(t, a) {
      var u := Reactivate(cfg, t, a, now);
      ReactivateWorks(cfg, t, a, now);
      InvLinks(cfg, u, now);
      assert IsCurrent(u, a, c);
      ServedAfter(cfg, s, t, Outcome(u, Success(LeaseOn(u, a, false))), now);
    } else {
      RotateServes(cfg, t, a, codes, newId, now);
      ServedAfter(cfg, s, t, Rotate(cfg, t, a, codes, newId, now), now);
    }
  }

  lemma RefreshServes(cfg: Config, s: Store, owner: Id, code: Id, codes: seq<Id>, newId: Id, now: Time)
    requires ValidConfig(cfg) && Inv(cfg, s, now) && Linked(s) && newId !in s.aliases
    ensures Served(cfg, s, Refresh(cfg, s, owner, code, codes, newId, now), now)
  {
    hide Inv, Works, Reconcile, RefreshSettled;
    WorksReflexive(s);
    var found := AliasFor(s, owner, code);
    if found.Some? && !s.contexts[s.aliases[found.value].context].state.Closed? {
      var a := found.value;
      var c := s.aliases[a].context;
      var t := Reconcile(cfg, s, a, now);
      ReconcileWorks(cfg, s, a, now);
      ReconcileSettles(cfg, s, a, now);
      InvLinks(cfg, t, now);
      RowStays(s, t, a);
      RefreshSettledServes(cfg, s, t, a, codes, newId, now);
      ServedAfter(cfg, s, t, Refresh(cfg, s, owner, code, codes, newId, now), now);
    }
  }

  lemma RefreshSettledServes(cfg: Config, s: Store, t: Store, a: Id, codes: seq<Id>, newId: Id, now: Time)
    requires ValidConfig(cfg) && Works(s, t) && Settles(s, t) && newId !in s.aliases
    requires Inv(cfg, t, now) && Linked(s) && Linked(t) && a in s.aliases && a in t.aliases
    requires t.aliases[a].context == s.aliases[a].context && !s.contexts[s.aliases[a].context].state.Closed?
    ensures Served(cfg, t, RefreshSettled(cfg, t, a, codes, newId, now), now)
  {
    hide Inv, Reconcile, Renew, Revive, Advances;
    var c := t.aliases[a].context;
    assert !t.contexts[c].state.Closed?;
    var current := CurrentOf(t, c);
    if current.None? {
      ReviveServes(cfg, t, a, codes, newId, now);
    } else {
      var u := Reconcile(cfg, t, current.value, now);
      ReconcileWorks(cfg, t, current.value, now);
      ReconcileSettles(cfg, t, current.value, now);
      InvLinks(cfg, u, now);
      if u.aliases[current.value].status.Active? {
        RenewGrants(cfg, u, current.value, now, true, current.value != a);
        ServedAfter(cfg, t, u, RefreshSettled(cfg, t, a, codes, newId, now), now);
      } else {
        forall b ensures !IsCurrent(u, b, c) {
          if IsCurrent(t, b, c) {
            OneCurrent(cfg, t, b, current.value, c, now);
          }
        }
        RowStays(t, u, a);
        ReviveServes(cfg, u, a, codes, newId, now);
        ServedAfter(cfg, t, u, RefreshSettled(cfg, t, a, codes, newId, now), now);
      }
    }
  }

  lemma ResolveServes(cfg: Config, s: Store, owner: Id, code: Id, now: Time)
    requires ValidConfig(cfg) && Inv(cfg, s, now) && Linked(s)
    ensures Served(cfg, s, Resolve(cfg, s, owner, code, now), now)
  {
    hide Inv, Works, Reconcile;
    WorksReflexive(s);
    var found := AliasFor(s, owner, code);
    if found.Some? {
      var t := Reconcile(cfg, s, found.value, now);
      ReconcileWorks(cfg, s, found.value, now);
      ReconcileSettles(cfg, s, found.value, now);
      InvLinks(cfg, t, now);
      if t.aliases[found.value].status.Active? {
        RenewGrants(cfg, t, found.value, now, false, false);
        var u := Renew(cfg, t, found.value, now, false);
        ServedAfter(cfg, s, t, Outcome(u, Success(LeaseOn(u, found.value, false))), now);
      }
    }
  }

  lemma FirstAliasServes(cfg: Config, s: Store, c: Id, codes: seq<Id>, newId: Id, now: Time)
    requires ValidConfig(cfg) && Inv(cfg, s, now) && Linked(s) && c in s.contexts && newId !in s.aliases
    requires !s.contexts[c].state.Closed? && CurrentOf(s, c).None?
    ensures Served(cfg, s, FirstAlias(cfg, s, c, codes, newId, now), now)
  {
    hide Inv, Works, Allocate;
    AllocateWorks(cfg, s, c, codes, newId, now);
  }

  lemma EnsureServes(cfg: Config, s: Store, c: Id, codes: seq<Id>, newId: Id, now: Time)
    requires ValidConfig(cfg) && Inv(cfg, s, now) && Linked(s) && c in s.contexts && newId !in s.aliases
    ensures Served(cfg, s, EnsureAlias(cfg, s, c, codes, newId, now), now)
  {
    hide Inv, Works, Reconcile, Refresh, FirstAlias;
    WorksReflexive(s);
    if !s.contexts[c].state.Closed? {
      var current := CurrentOf(s, c);
      if current.Some? {
        var t := Reconcile(cfg, s, current.value, now);
        ReconcileWorks(cfg, s, current.value, now);
        ReconcileSettles(cfg, s, current.value, now);
        InvLinks(cfg, t, now);
        assert !t.contexts[c].state.Closed? by { StaysOpen(s, t, c); }
        if t.aliases[current.value].status.Active? {
          RenewGrants(cfg, t, current.value, now, false, false);
        } else {
          forall b ensures !IsCurrent(t, b, c) {
            if IsCurrent(s, b, c) {
              OneCurrent(cfg, s, b, current.value, c, now);
            }
          }
          EnsureRestServes(cfg, t, c, s.contexts[c].owner, codes, newId, now);
        }
        ServedAfter(cfg, s, t, EnsureAlias(cfg, s, c, codes, newId, now), now);
      } else {
        EnsureRestServes(cfg, s, c, s.contexts[c].owner, codes, newId, now);
      }
    }
  }

  lemma StaysOpen(s: Store, t: Store, c: Id)
    requires Works(s, t) && c in s.contexts && c in t.contexts && !s.contexts[c].state.Closed?
    ensures !t.contexts[c].state.Closed?
  {
  }

  lemma EnsureRestServes(cfg: Config, t: Store, c: Id, owner: Id, codes: seq<Id>, newId: Id, now: Time)
    requires ValidConfig(cfg) && Inv(cfg, t, now) && Linked(t) && c in t.contexts && newId !in t.aliases
    requires !t.contexts[c].state.Closed? && CurrentOf(t, c).None?
    ensures Served(cfg, t, EnsureRest(cfg, t, c, owner, codes, newId, now), now)
  {
    hide Inv, Works, Refresh, FirstAlias;
    if exists a :: IsLatest(t, a, c) {
      var a :| IsLatest(t, a, c) && EnsureRest(cfg, t, c, owner, codes, newId, now)
                                      == Refresh(cfg, t, owner, t.aliases[a].code, codes, newId, now);
      RefreshServes(cfg, t, owner, t.aliases[a].code, codes, newId, now);
    } else {
      FirstAliasServes(cfg, t, c, codes, newId, now);
    }
  }

  lemma AddContextWorks(cfg: Config, s: Store, owner: Id, nonce: Option<Id>, newContext: Id, clock: Time)
    requires Inv(cfg, s, clock) && Linked(s) && newContext !in s.contexts
    requires nonce.Some? ==>
               forall c :: c in s.contexts ==> !(s.contexts[c].owner == owner && s.contexts[c].nonce == nonce)
    ensures var t := AddContext(s, owner, nonce, newContext);
            Inv(cfg, t, clock) && Linked(t) && Works(s, t) && CurrentOf(t, newContext).None?
  {
    hide LastStatus;
    var t := AddContext(s, owner, nonce, newContext);
    forall a | a in s.aliases ensures AliasOk(cfg, t, a, clock) {
      assert AliasOk(cfg, s, a, clock);
      LastStatusAppended(s.log, Entry(newContext, None, Created), s.aliases[a].context, s.aliases[a].generation);
    }
    forall c, g: nat | c in t.contexts && 1 <= g <= t.contexts[c].generation ensures HasGeneration(t, c, g) {
      assert HasGeneration(s, c, g);
    }
    forall c | ClosedForGood(s, c) ensures ClosedForGood(t, c) {
      forall a ensures !IsCurrent(t, a, c) {
        assert !IsCurrent(s, a, c);
      }
    }
  }

  lemma CreateServes(cfg: Config, s: Store, owner: Id, nonce: Option<Id>, codes: seq<Id>, newContext: Id, newAlias: Id,
                     now: Time)
    requires ValidConfig(cfg) && Inv(cfg, s, now) && Linked(s) && newContext !in s.contexts && newAlias !in s.aliases
    ensures Served(cfg, s, CreateContext(cfg, s, owner, nonce, codes, newContext, newAlias, now), now)
  {
    hide Inv, Works, EnsureAlias, FirstAlias;
    if nonce.Some? && exists c :: c in s.contexts && s.contexts[c].owner == owner && s.contexts[c].nonce == nonce {
      forall c | c in s.contexts {
        EnsureServes(cfg, s, c, codes, newAlias, now);
      }
    } else {
      var t := AddContext(s, owner, nonce, newContext);
      AddContextWorks(cfg, s, owner, nonce, newContext, now);
      FirstAliasServes(cfg, t, newContext, codes, newAlias, now);
      ServedAfter(cfg, s, t, FirstAlias(cfg, t, newContext, codes, newAlias, now), now);
    }
  }
}
