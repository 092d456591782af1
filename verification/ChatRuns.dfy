/**
 * Whole runs of chat-context requests, with a clock that never goes back. A context
 * may be closed and an alias revoked at any time from outside, and the transaction
 * of any request may be rolled back.
 */
module ChatRuns {
  import opened Common
  import opened ChatAliases
  import opened ChatAliasLaws
  import opened ChatBindings

  datatype Request =
    | DoCreate(owner: Id, nonce: Option<Id>, codes: seq<Id>, newContext: Id, newAlias: Id)
    | DoResolve(owner: Id, code: Id)
    | DoRefresh(owner: Id, code: Id, codes: seq<Id>, newAlias: Id)
    | DoEnsure(context: Id, codes: seq<Id>, newAlias: Id)
    | DoBind(owner: Id, context: Id, ref: Id, version: nat)
    | Close(context: Id)
    | Revoke(revoked: Id)

  datatype Event = Event(request: Request, now: Time, kept: bool)

  /** Ids of new rows are new. */
  ghost predicate FreshIds(s: Store, r: Request) {
    match r
    case DoCreate(_, _, _, newContext, newAlias) => newContext !in s.contexts && newAlias !in s.aliases
    case DoRefresh(_, _, _, newAlias) => newAlias !in s.aliases
    case DoEnsure(_, _, newAlias) => newAlias !in s.aliases
    case _ => true
  }

  function CloseContext(s: Store, c: Id): Store {
    if c in s.contexts then WithState(s, c, Closed) else s
  }

  function RevokeAlias(s: Store, a: Id): Store {
    if a in s.aliases then Log(Update(s, a, s.aliases[a].(status := Revoked)), a, Withdrawn) else s
  }

  ghost function Effect(cfg: Config, h: Digests, s: Store, r: Request, now: Time): Store
    requires Linked(s)
  {
    match r
    case DoCreate(owner, nonce, codes, newContext, newAlias) =>
      CreateContext(cfg, s, owner, nonce, codes, newContext, newAlias, now).store
    case DoResolve(owner, code) => Resolve(cfg, s, owner, code, now).store
    case DoRefresh(owner, code, codes, newAlias) => Refresh(cfg, s, owner, code, codes, newAlias, now).store
    case DoEnsure(c, codes, newAlias) =>
      if c in s.contexts then EnsureAlias(cfg, s, c, codes, newAlias, now).store else s
    case DoBind(owner, c, ref, version) => Bind(h, s, owner, c, ref, version).0
    case Close(c) => CloseContext(s, c)
    case Revoke(a) => RevokeAlias(s, a)
  }

  ghost function Apply(cfg: Config, h: Digests, s: Store, e: Event): Store
    requires Linked(s)
  {
    if e.kept then Effect(cfg, h, s, e.request, e.now) else s
  }

  /** What is true of a store at a time. */
  ghost predicate Good(cfg: Config, h: Digests, s: Store, clock: Time) {
    Inv(cfg, s, clock) && OneToOne(h, s)
  }

  /** A run leads from one store and time to another. */
  ghost predicate Leads(cfg: Config, h: Digests, s: Store, clock: Time, events: seq<Event>, t: Store, end: Time)
    decreases events
  {
    if events == [] then s == t && clock == end
    else
      && Linked(s) && clock <= events[0].now && FreshIds(s, events[0].request)
      && Leads(cfg, h, Apply(cfg, h, s, events[0]), events[0].now, events[1..], t, end)
  }

  lemma EmptyStoreIsGood(cfg: Config, h: Digests, clock: Time)
    ensures Good(cfg, h, Store(map[], map[], []), clock)
  {
  }

  lemma CloseWorks(cfg: Config, s: Store, c: Id, clock: Time)
    requires Inv(cfg, s, clock)
    ensures Inv(cfg, CloseContext(s, c), clock) && Advances(s, CloseContext(s, c))
  {
    hide LastStatus;
    var t := CloseContext(s, c);
    forall a | a in s.aliases ensures AliasOk(cfg, t, a, clock) {
      assert AliasOk(cfg, s, a, clock);
    }
    forall d, g: nat | d in t.contexts && 1 <= g <= t.contexts[d].generation ensures HasGeneration(t, d, g) {
      assert HasGeneration(s, d, g);
    }
    forall d | ClosedForGood(s, d) ensures ClosedForGood(t, d) {
      forall a ensures !IsCurrent(t, a, d) {
        assert !IsCurrent(s, a, d);
      }
    }
  }

  lemma RevokeWorks(cfg: Config, s: Store, a: Id, clock: Time)
    requires Inv(cfg, s, clock)
    ensures Inv(cfg, RevokeAlias(s, a), clock) && Works(s, RevokeAlias(s, a))
  {
    hide LastStatus, Works;
    var t := RevokeAlias(s, a);
    WorksReflexive(s);
    if a in s.aliases {
      var al := s.aliases[a];
      var e := Entry(al.context, Some(al.generation), Withdrawn);
      assert AliasOk(cfg, s, a, clock);
      LastStatusAppended(s.log, e, al.context, al.generation);
      TouchKeepsInv(cfg, s, t, a, [e], clock);
      InvLinks(cfg, s, clock);
      TouchWorks(s, t, a, [e]);
    }
  }

  lemma RequestWorks(cfg: Config, s: Store, h: Digests, r: Request, now: Time)
    requires ValidConfig(cfg) && Inv(cfg, s, now) && Linked(s) && FreshIds(s, r) && !r.DoBind? && !r.Close?
    ensures Inv(cfg, Effect(cfg, h, s, r, now), now) && Works(s, Effect(cfg, h, s, r, now))
  {
    hide Inv, Works, Resolve, Refresh, EnsureAlias, CreateContext, RevokeAlias;
    WorksReflexive(s);
    match r
    case DoCreate(owner, nonce, codes, newContext, newAlias) =>
      CreateServes(cfg, s, owner, nonce, codes, newContext, newAlias, now);
    case DoResolve(owner, code) => ResolveServes(cfg, s, owner, code, now);
    case DoRefresh(owner, code, codes, newAlias) => RefreshServes(cfg, s, owner, code, codes, newAlias, now);
    case DoEnsure(c, codes, newAlias) =>
      if c in s.contexts {
        EnsureServes(cfg, s, c, codes, newAlias, now);
      }
    case Revoke(a) => RevokeWorks(cfg, s, a, now);
  }

  lemma CloseKeepsOneToOne(h: Digests, s: Store, c: Id)
    requires OneToOne(h, s)
    ensures OneToOne(h, CloseContext(s, c))
  {
  }

  lemma AdvancesReflexive(s: Store)
    ensures Advances(s, s)
  {
  }

  lemma StepKeepsGood(cfg: Config, h: Digests, s: Store, clock: Time, e: Event)
    requires ValidConfig(cfg) && CollisionFree(h) && Good(cfg, h, s, clock) && Linked(s)
    requires clock <= e.now && FreshIds(s, e.request)
    ensures Good(cfg, h, Apply(cfg, h, s, e), e.now) && Advances(s, Apply(cfg, h, s, e))
  {
    hide Inv, OneToOne, Advances, CollisionFree, Effect;
    InvLater(cfg, s, clock, e.now);
    AdvancesReflexive(s);
    if e.kept {
      EffectKeepsGood(cfg, h, s, e.request, e.now);
    }
  }

  lemma EffectKeepsGood(cfg: Config, h: Digests, s: Store, r: Request, now: Time)
    requires ValidConfig(cfg) && CollisionFree(h) && Good(cfg, h, s, now) && Linked(s) && FreshIds(s, r)
    ensures Good(cfg, h, Effect(cfg, h, s, r, now), now) && Advances(s, Effect(cfg, h, s, r, now))
  {
    hide Inv, OneToOne, Advances, CollisionFree, Resolve, Refresh, EnsureAlias, CreateContext, RevokeAlias,
         CloseContext, Bind;
    if r.DoBind? {
      BindKeepsOneToOne(h, s, r.owner, r.context, r.ref, r.version);
      BindWorks(cfg, h, s, r.owner, r.context, r.ref, r.version, now);
    } else if r.Close? {
      CloseWorks(cfg, s, r.context, now);
      CloseKeepsOneToOne(h, s, r.context);
    } else {
      RequestWorks(cfg, s, h, r, now);
      OthersKeepOneToOne(h, s, Effect(cfg, h, s, r, now));
    }
  }

  lemma AdvancesTransitive(s: Store, t: Store, u: Store)
    requires Advances(s, t) && Advances(t, u)
    ensures Advances(s, u)
  {
    hide ClosedForGood;
    forall c | c in s.contexts ensures c in u.contexts && ContextAdvances(s.contexts[c], u.contexts[c]) {
      assert ContextAdvances(s.contexts[c], t.contexts[c]);
    }
    forall a | a in s.aliases ensures a in u.aliases && AliasAdvances(s.aliases[a], u.aliases[a]) {
      assert AliasAdvances(s.aliases[a], t.aliases[a]);
    }
  }

  /**
   * Over any run the store stays good, codes keep naming their contexts, no expiry
   * moves back, revoked aliases stay revoked, bindings are never rewritten, and a
   * closed context without an active alias stays closed.
   */
  lemma {:induction false} RunKeepsGood(cfg: Config, h: Digests, s: Store, clock: Time, events: seq<Event>, t: Store,
                                        end: Time)
    requires ValidConfig(cfg) && CollisionFree(h) && Good(cfg, h, s, clock)
    requires Leads(cfg, h, s, clock, events, t, end)
    ensures Good(cfg, h, t, end) && Advances(s, t) && clock <= end
    decreases events
  {
    hide Good, Advances, Apply;
    if events == [] {
      AdvancesReflexive(s);
    } else {
      var next := Apply(cfg, h, s, events[0]);
      StepKeepsGood(cfg, h, s, clock, events[0]);
      RunKeepsGood(cfg, h, next, events[0].now, events[1..], t, end);
      AdvancesTransitive(s, next, t);
    }
  }
}
