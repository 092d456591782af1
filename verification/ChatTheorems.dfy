/** What the chat-context service promises its users, derived from the laws of its requests. */
module ChatTheorems {
  import opened Common
  import opened ChatAliases
  import opened ChatAliasLaws
  import opened ChatBindings
  import opened ChatRuns

  /* ---- Codes ---- */

  /** Another alias with the code is revoked, or its lease ran out at least the quarantine time before. */
  predicate OutOfQuarantine(cfg: Config, al: Alias, now: Time) {
    al.status.Revoked? || (al.status.Released? && al.expiresAt + cfg.quarantine <= now)
  }

  /** Whenever a code is leased, by first issue, reactivation or renewal, nobody else's claim to it is recent. */
  lemma LeasedCodeIsOutOfQuarantine(cfg: Config, s: Store, o: Outcome, now: Time)
    requires Served(cfg, s, o, now) && o.answer.Success?
    ensures exists a :: IsCurrent(o.store, a, o.answer.value.context) && o.store.aliases[a].code == o.answer.value.code
              && forall b :: b in o.store.aliases && b != a && o.store.aliases[b].code == o.answer.value.code
                             ==> OutOfQuarantine(cfg, o.store.aliases[b], now)
  {
    hide LastStatus;
    var t, l := o.store, o.answer.value;
    var a :| IsCurrent(t, a, l.context) && LeaseOn(t, a, l.rotated) == l;
    forall b | b in t.aliases && b != a && t.aliases[b].code == l.code ensures OutOfQuarantine(cfg, t.aliases[b], now) {
      assert Apart(t.aliases[a], t.aliases[b]) && AliasOk(cfg, t, b, now);
    }
  }

  lemma CodeFoundAgain(cfg: Config, s: Store, t: Store, owner: Id, code: Id, end: Time)
    requires Inv(cfg, t, end) && Advances(s, t) && AliasFor(s, owner, code).Some?
    ensures AliasFor(t, owner, code) == AliasFor(s, owner, code)
    ensures t.aliases[AliasFor(t, owner, code).value].context == s.aliases[AliasFor(s, owner, code).value].context
  {
    hide AliasOk;
    var a := AliasFor(s, owner, code).value;
    assert AliasAdvances(s.aliases[a], t.aliases[a]);
    assert Carries(t, a, owner, code);
    var b := AliasFor(t, owner, code).value;
    assert a != b ==> Apart(t.aliases[a], t.aliases[b]);
  }

  lemma ResolveNamesContext(cfg: Config, s: Store, owner: Id, code: Id, now: Time)
    requires Linked(s) && Resolve(cfg, s, owner, code, now).answer.Success?
    ensures AliasFor(s, owner, code).Some?
    ensures Resolve(cfg, s, owner, code, now).answer.value.context == s.aliases[AliasFor(s, owner, code).value].context
  {
  }

  /** The same rows, and every alias still with its context. */
  ghost predicate SameAddresses(s: Store, t: Store) {
    && Linked(t) && t.contexts.Keys == s.contexts.Keys && t.aliases.Keys == s.aliases.Keys
    && (forall a :: a in s.aliases ==> t.aliases[a].context == s.aliases[a].context)
    && (forall a :: a in s.aliases ==> t.aliases[a].replacedBy == s.aliases[a].replacedBy)
  }

  lemma ReconcileKeepsAddress(cfg: Config, s: Store, b: Id, now: Time)
    requires Linked(s) && b in s.aliases
    ensures SameAddresses(s, Reconcile(cfg, s, b, now))
  {
  }

  lemma ReconcileCodeKeepsAddress(cfg: Config, s: Store, code: Id, now: Time)
    requires Linked(s)
    ensures SameAddresses(s, ReconcileCode(cfg, s, code, now))
  {
    hide Reconcile;
    if HolderOf(s, code).Some? {
      ReconcileKeepsAddress(cfg, s, HolderOf(s, code).value, now);
    }
  }

  lemma {:induction false} AllocateNamesContext(cfg: Config, s: Store, c: Id, codes: seq<Id>, newId: Id, now: Time)
    requires Linked(s) && c in s.contexts && Allocate(cfg, s, c, codes, newId, now).1
    ensures newId in Allocate(cfg, s, c, codes, newId, now).0.aliases
    ensures Allocate(cfg, s, c, codes, newId, now).0.aliases[newId].context == c
    ensures newId !in s.aliases ==>
              var t := Allocate(cfg, s, c, codes, newId, now).0;
              forall a :: a in s.aliases ==> a in t.aliases && t.aliases[a].replacedBy == s.aliases[a].replacedBy
    decreases codes
  {
    hide ReconcileCode;
    if codes != [] {
      var t := ReconcileCode(cfg, s, codes[0], now);
      ReconcileCodeKeepsAddress(cfg, s, codes[0], now);
      if AliasFor(t, s.contexts[c].owner, codes[0]).Some? || HolderOf(t, codes[0]).Some? {
        AllocateNamesContext(cfg, t, c, codes[1..], newId, now);
      }
    }
  }

  lemma ReviveNamesContext(cfg: Config, s: Store, a: Id, codes: seq<Id>, newId: Id, now: Time)
    requires Linked(s) && a in s.aliases && newId !in s.aliases && Revive(cfg, s, a, codes, newId, now).answer.Success?
    ensures Revive(cfg, s, a, codes, newId, now).answer.value.context == s.aliases[a].context
  {
    hide ReconcileCode, Allocate;
    var t := ReconcileCode(cfg, s, s.aliases[a].code, now);
    ReconcileCodeKeepsAddress(cfg, s, s.aliases[a].code, now);
    if CodeTaken(t, a) || !MayReactivate(t, a) {
      AllocateNamesContext(cfg, t, s.aliases[a].context, codes, newId, now);
    }
  }

  lemma RefreshNamesContext(cfg: Config, s: Store, owner: Id, code: Id, codes: seq<Id>, newId: Id, now: Time)
    requires Linked(s) && newId !in s.aliases && Refresh(cfg, s, owner, code, codes, newId, now).answer.Success?
    ensures AliasFor(s, owner, code).Some?
    ensures Refresh(cfg, s, owner, code, codes, newId, now).answer.value.context ==
            s.aliases[AliasFor(s, owner, code).value].context
  {
    hide Reconcile, Revive;
    var a := AliasFor(s, owner, code).value;
    var t := Reconcile(cfg, s, a, now);
    ReconcileKeepsAddress(cfg, s, a, now);
    var current := CurrentOf(t, t.aliases[a].context);
    if current.None? {
      ReviveNamesContext(cfg, t, a, codes, newId, now);
    } else {
      var u := Reconcile(cfg, t, current.value, now);
      ReconcileKeepsAddress(cfg, t, current.value, now);
      if !u.aliases[current.value].status.Active? {
        ReviveNamesContext(cfg, u, a, codes, newId, now);
      }
    }
  }

  /** The alias that gave way names the first that took its place, and the log ends by saying so. */
  ghost predicate Noted(s: Store, t: Store, a: Id, replacement: Id)
    requires a in s.aliases
  {
    && a in t.aliases && replacement in t.aliases && |t.log| > 0
    && (if s.aliases[a].replacedBy.Some? then t.aliases[a].replacedBy == s.aliases[a].replacedBy
        else t.aliases[a].replacedBy == Some(replacement))
    && t.log[|t.log| - 1] ==
       Entry(t.aliases[replacement].context, Some(t.aliases[replacement].generation), Rotated(a, replacement))
  }

  lemma ReviveNotes(cfg: Config, s: Store, a: Id, codes: seq<Id>, newId: Id, now: Time)
    requires Linked(s) && a in s.aliases && newId !in s.aliases && Revive(cfg, s, a, codes, newId, now).answer.Success?
    ensures var o := Revive(cfg, s, a, codes, newId, now);
            newId in o.store.aliases ==>
              Noted(s, o.store, a, newId) && o.answer.value == LeaseOn(o.store, newId, true)
  {
    hide ReconcileCode, Allocate;
    var t := ReconcileCode(cfg, s, s.aliases[a].code, now);
    ReconcileCodeKeepsAddress(cfg, s, s.aliases[a].code, now);
    if CodeTaken(t, a) || !MayReactivate(t, a) {
      AllocateNamesContext(cfg, t, s.aliases[a].context, codes, newId, now);
    }
  }

  /** A refresh that gives out a new code notes on the old alias which one took its place. */
  lemma RotationIsNoted(cfg: Config, s: Store, owner: Id, code: Id, codes: seq<Id>, newId: Id, now: Time)
    requires Linked(s) && newId !in s.aliases && Refresh(cfg, s, owner, code, codes, newId, now).answer.Success?
    ensures var o := Refresh(cfg, s, owner, code, codes, newId, now);
            newId in o.store.aliases ==>
              && Noted(s, o.store, AliasFor(s, owner, code).value, newId)
              && o.answer.value == LeaseOn(o.store, newId, true)
  {
    hide Reconcile, Revive, Noted;
    var a := AliasFor(s, owner, code).value;
    var t := Reconcile(cfg, s, a, now);
    ReconcileKeepsAddress(cfg, s, a, now);
    var current := CurrentOf(t, t.aliases[a].context);
    if current.None? {
      ReviveNotes(cfg, t, a, codes, newId, now);
      NotedBefore(s, t, Revive(cfg, t, a, codes, newId, now).store, a, newId);
    } else {
      var u := Reconcile(cfg, t, current.value, now);
      ReconcileKeepsAddress(cfg, t, current.value, now);
      if !u.aliases[current.value].status.Active? {
        ReviveNotes(cfg, u, a, codes, newId, now);
        NotedBefore(s, u, Revive(cfg, u, a, codes, newId, now).store, a, newId);
      }
    }
  }

  lemma NotedBefore(s: Store, t: Store, u: Store, a: Id, replacement: Id)
    requires SameAddresses(s, t) && a in s.aliases
    ensures Noted(t, u, a, replacement) ==> Noted(s, u, a, replacement)
  {
  }

  /** One use of a code by its owner. */
  datatype Use = Resolving | Refreshing(codes: seq<Id>, newId: Id)

  ghost function AnswerTo(cfg: Config, s: Store, owner: Id, code: Id, use: Use, now: Time): Result<Lease, Error>
    requires Linked(s)
  {
    match use
    case Resolving => Resolve(cfg, s, owner, code, now).answer
    case Refreshing(codes, newId) => Refresh(cfg, s, owner, code, codes, newId, now).answer
  }

  lemma AnswerNamesContext(cfg: Config, s: Store, owner: Id, code: Id, use: Use, now: Time)
    requires Linked(s) && AnswerTo(cfg, s, owner, code, use, now).Success?
             && (use.Refreshing? ==> use.newId !in s.aliases)
    ensures AliasFor(s, owner, code).Some?
    ensures AnswerTo(cfg, s, owner, code, use, now).value.context == s.aliases[AliasFor(s, owner, code).value].context
  {
    hide Resolve, Refresh;
    match use
    case Resolving => ResolveNamesContext(cfg, s, owner, code, now);
    case Refreshing(codes, newId) => RefreshNamesContext(cfg, s, owner, code, codes, newId, now);
  }

  /** For its owner a code means one context for ever: two answers, however far apart, name the same one. */
  lemma CodeNamesOneContext(cfg: Config, h: Digests, s: Store, clock: Time, events: seq<Event>, t: Store, end: Time,
                            owner: Id, code: Id, first: Use, second: Use, now: Time, later: Time)
    requires ValidConfig(cfg) && CollisionFree(h) && Good(cfg, h, s, clock) && Leads(cfg, h, s, clock, events, t, end)
    requires Linked(s) && Linked(t)
    requires AnswerTo(cfg, s, owner, code, first, now).Success? && (first.Refreshing? ==> first.newId !in s.aliases)
    requires AnswerTo(cfg, t, owner, code, second, later).Success?
             && (second.Refreshing? ==> second.newId !in t.aliases)
    ensures AnswerTo(cfg, s, owner, code, first, now).value.context ==
            AnswerTo(cfg, t, owner, code, second, later).value.context
  {
    hide AnswerTo, Inv, Advances, OneToOne, Leads;
    RunKeepsGood(cfg, h, s, clock, events, t, end);
    AnswerNamesContext(cfg, s, owner, code, first, now);
    AnswerNamesContext(cfg, t, owner, code, second, later);
    CodeFoundAgain(cfg, s, t, owner, code, end);
  }

  /** Generations of a context are used up without gaps: exactly 1 to its counter, one alias each. */
  lemma GenerationsAreExactly(cfg: Config, s: Store, clock: Time, c: Id, g: nat)
    requires Inv(cfg, s, clock) && c in s.contexts
    ensures (exists a :: a in s.aliases && s.aliases[a].context == c && s.aliases[a].generation == g)
            <==> 1 <= g <= s.contexts[c].generation
    ensures forall a, b :: (a in s.aliases && b in s.aliases && s.aliases[a].context == c && s.aliases[b].context == c
                            && s.aliases[a].generation == s.aliases[b].generation) ==> a == b
  {
    hide LastStatus;
    if 1 <= g <= s.contexts[c].generation {
      assert HasGeneration(s, c, g);
    }
    forall a | a in s.aliases ensures AliasOk(cfg, s, a, clock) {
    }
    forall a, b | a in s.aliases && b in s.aliases && a != b ensures Apart(s.aliases[a], s.aliases[b]) {
    }
  }

  /* ---- Lazy expiry ---- */

  /** How often a row is brought up to date on the way makes no difference, not even to the log. */
  lemma ReconcilingTwiceIsOnce(cfg: Config, s: Store, a: Id, t1: Time, t2: Time)
    requires Linked(s) && a in s.aliases && t1 <= t2
    ensures Linked(Reconcile(cfg, s, a, t1)) && a in Reconcile(cfg, s, a, t1).aliases
    ensures Reconcile(cfg, Reconcile(cfg, s, a, t1), a, t2) == Reconcile(cfg, s, a, t2)
  {
    var once, twice := Reconcile(cfg, s, a, t2), Reconcile(cfg, Reconcile(cfg, s, a, t1), a, t2);
    assert once.aliases == twice.aliases;
    assert once.contexts == twice.contexts;
  }

  /** What the status of an alias ought to be at a time, whatever is stored. */
  function StatusAt(cfg: Config, al: Alias, now: Time): AliasStatus {
    if al.status.Revoked? then Revoked
    else if al.status.Active? && now < al.expiresAt then Active
    else if now < al.expiresAt + cfg.quarantine then Quarantined
    else Released
  }

  /** The stored status is right once the row is brought up to date. */
  lemma ReconciledStatusIsRight(cfg: Config, s: Store, a: Id, clock: Time, now: Time)
    requires Inv(cfg, s, clock) && Linked(s) && a in s.aliases && clock <= now
    ensures Reconcile(cfg, s, a, now).aliases[a].status == StatusAt(cfg, s.aliases[a], now)
  {
    assert AliasOk(cfg, s, a, clock);
  }

  /** The alias is the owner's, its lease has time left on the real clock and its context is open. */
  ghost predicate Ready(s: Store, a: Id, owner: Id, code: Id, now: Time)
    requires Linked(s)
  {
    Carries(s, a, owner, code) && s.aliases[a].status.Active? && now < s.aliases[a].expiresAt
    && !s.contexts[s.aliases[a].context].state.Closed?
  }

  /** A code resolves exactly when it ought to, however long its row has not been looked at. */
  lemma ResolveSucceedsExactly(cfg: Config, s: Store, owner: Id, code: Id, clock: Time, now: Time)
    requires Inv(cfg, s, clock) && Linked(s) && clock <= now
    ensures Resolve(cfg, s, owner, code, now).answer.Success? <==>
            exists a :: Ready(s, a, owner, code, now)
  {
    hide AliasOk;
    forall a, b | Carries(s, a, owner, code) && Carries(s, b, owner, code) ensures a == b {
      assert a != b ==> Apart(s.aliases[a], s.aliases[b]);
    }
    var found := AliasFor(s, owner, code);
    if found.Some? {
      assert Resolve(cfg, s, owner, code, now).answer.Success? <==> Ready(s, found.value, owner, code, now);
    }
  }

  /**
   * Why a code does not resolve: the owner has never had it, or its context is closed
   * and no overdue alias reopens it, or its lease has run out.
   */
  lemma ResolveFailsExactly(cfg: Config, s: Store, owner: Id, code: Id, now: Time)
    requires Inv(cfg, s, now) && Linked(s)
    ensures var r := Resolve(cfg, s, owner, code, now).answer;
            && (r == Failure(NotFound) <==> forall a :: !Carries(s, a, owner, code))
            && (r == Failure(ContextClosed) <==>
                exists a :: Carries(s, a, owner, code) && s.contexts[s.aliases[a].context].state.Closed?
                            && !(s.aliases[a].status.Active? && s.aliases[a].expiresAt <= now))
            && (r.Failure? ==> r.error in {NotFound, ContextClosed, AliasExpired})
  {
    hide AliasOk;
    var found := AliasFor(s, owner, code);
    if found.Some? {
      forall a | Carries(s, a, owner, code) ensures a == found.value {
        assert a != found.value ==> Apart(s.aliases[a], s.aliases[found.value]);
      }
      assert Carries(s, found.value, owner, code);
    }
  }

  function RenewedExpiry(cfg: Config, expiresAt: Time, now: Time): Time {
    if expiresAt - now > cfg.threshold then expiresAt else Max(expiresAt, now + cfg.ttl)
  }

  lemma AnswerWhenReady(cfg: Config, s: Store, a: Id, owner: Id, code: Id, clock: Time, now: Time)
    requires Inv(cfg, s, clock) && Linked(s) && Ready(s, a, owner, code, now)
    ensures var al := s.aliases[a];
            Resolve(cfg, s, owner, code, now).answer
            == Success(Lease(al.context, code, al.generation, RenewedExpiry(cfg, al.expiresAt, now), false))
  {
    hide AliasOk;
    var found := AliasFor(s, owner, code).value;
    assert a != found ==> Apart(s.aliases[a], s.aliases[found]);
  }

  lemma ReadyUntouched(cfg: Config, s: Store, b: Id, a: Id, owner: Id, code: Id, clock: Time, earlier: Time, now: Time)
    requires Inv(cfg, s, clock) && Linked(s) && b in s.aliases && clock <= earlier <= now
    requires Linked(Reconcile(cfg, s, b, earlier))
    ensures var t := Reconcile(cfg, s, b, earlier);
            && (Ready(t, a, owner, code, now) <==> Ready(s, a, owner, code, now))
            && (Ready(s, a, owner, code, now) ==> t.aliases[a] == s.aliases[a])
  {
    hide LastStatus;
    if a in s.aliases {
      assert AliasOk(cfg, s, a, clock) && AliasOk(cfg, s, b, clock);
      assert a != b ==> Apart(s.aliases[a], s.aliases[b]);
      var t := Reconcile(cfg, s, b, earlier);
      if a == b {
        assert s.aliases[a].status.Active? && earlier < s.aliases[a].expiresAt ==> t == s;
        assert t.aliases[a].status.Active? ==> t == s;
      } else {
        assert t.aliases[a] == s.aliases[a];
        assert s.aliases[a].status.Active? && s.aliases[b].status.Active? ==>
               s.aliases[a].context != s.aliases[b].context;
        assert s.aliases[a].status.Active? ==> t.contexts[s.aliases[a].context] == s.contexts[s.aliases[a].context];
      }
    }
  }

  /** Bringing any row up to date beforehand changes neither whether a code resolves nor to what lease. */
  lemma LazyExpiryIsInvisible(cfg: Config, s: Store, b: Id, owner: Id, code: Id, clock: Time, earlier: Time, now: Time)
    requires Inv(cfg, s, clock) && Linked(s) && b in s.aliases && clock <= earlier <= now
    ensures var t := Reconcile(cfg, s, b, earlier);
            && Linked(t)
            && (Resolve(cfg, t, owner, code, now).answer.Success? <==>
                Resolve(cfg, s, owner, code, now).answer.Success?)
            && (Resolve(cfg, s, owner, code, now).answer.Success? ==>
                  Resolve(cfg, t, owner, code, now).answer == Resolve(cfg, s, owner, code, now).answer)
  {
    hide Inv, Resolve, Reconcile;
    var t := Reconcile(cfg, s, b, earlier);
    InvLater(cfg, s, clock, earlier);
    ReconcileWorks(cfg, s, b, earlier);
    InvLinks(cfg, t, earlier);
    ResolveSucceedsExactly(cfg, s, owner, code, clock, now);
    ResolveSucceedsExactly(cfg, t, owner, code, earlier, now);
    forall a ensures Ready(t, a, owner, code, now) <==> Ready(s, a, owner, code, now) {
      ReadyUntouched(cfg, s, b, a, owner, code, clock, earlier, now);
    }
    if a :| Ready(s, a, owner, code, now) {
      ReadyUntouched(cfg, s, b, a, owner, code, clock, earlier, now);
      AnswerWhenReady(cfg, s, a, owner, code, clock, now);
      AnswerWhenReady(cfg, t, a, owner, code, earlier, now);
    }
  }

  /* ---- Which code is given ---- */

  /** The owner has never had the code, and nobody's claim to it is alive on the real clock. */
  ghost predicate Free(cfg: Config, s: Store, owner: Id, code: Id, now: Time) {
    && (forall a :: !Carries(s, a, owner, code))
    && forall a :: a in s.aliases && s.aliases[a].code == code ==> !StatusAt(cfg, s.aliases[a], now).IsLive()
  }

  ghost function FirstFree(cfg: Config, s: Store, owner: Id, codes: seq<Id>, now: Time): Option<Id> {
    if codes == [] then None
    else if Free(cfg, s, owner, codes[0], now) then Some(codes[0])
    else FirstFree(cfg, s, owner, codes[1..], now)
  }

  /** Each alias as the clock sees it: its code, owner and rightful status. */
  ghost predicate SameOnClock(cfg: Config, s: Store, t: Store, now: Time) {
    && t.aliases.Keys == s.aliases.Keys
    && forall a :: a in s.aliases ==>
         && t.aliases[a].owner == s.aliases[a].owner && t.aliases[a].code == s.aliases[a].code
         && StatusAt(cfg, t.aliases[a], now) == StatusAt(cfg, s.aliases[a], now)
  }

  lemma ReconcileIsSameOnClock(cfg: Config, s: Store, b: Id, now: Time)
    requires Inv(cfg, s, now) && Linked(s) && b in s.aliases
    ensures SameOnClock(cfg, s, Reconcile(cfg, s, b, now), now)
  {
    hide LastStatus;
    assert AliasOk(cfg, s, b, now);
  }

  /** After the code's row is brought up to date, what is stored decides as the clock would. */
  lemma StoredDecidesAsClock(cfg: Config, s: Store, code: Id, now: Time, a: Id)
    requires Inv(cfg, s, now) && Linked(s)
    ensures var t := ReconcileCode(cfg, s, code, now);
            && SameOnClock(cfg, s, t, now)
            && (HoldsCode(t, a, code) <==>
                a in s.aliases && s.aliases[a].code == code && StatusAt(cfg, s.aliases[a], now).IsLive())
  {
    hide LastStatus, Reconcile;
    var holder := HolderOf(s, code);
    if a in s.aliases {
      assert AliasOk(cfg, s, a, now);
    }
    if holder.Some? {
      ReconcileIsSameOnClock(cfg, s, holder.value, now);
      ReconciledStatusIsRight(cfg, s, holder.value, now, now);
      OthersUntouched(cfg, s, holder.value, now);
      OthersHoldNoCode(cfg, s, holder.value, now);
    }
  }

  lemma OthersUntouched(cfg: Config, s: Store, b: Id, now: Time)
    requires Linked(s) && b in s.aliases
    ensures forall a ::
            a in s.aliases && a != b ==>
              a in Reconcile(cfg, s, b, now).aliases && Reconcile(cfg, s, b, now).aliases[a] == s.aliases[a]
  {
  }

  lemma FreeIsDecided(cfg: Config, s: Store, owner: Id, code: Id, now: Time)
    requires Inv(cfg, s, now) && Linked(s)
    ensures var t := ReconcileCode(cfg, s, code, now);
            Free(cfg, s, owner, code, now) <==> AliasFor(t, owner, code).None? && HolderOf(t, code).None?
  {
    hide Inv, ReconcileCode, StatusAt;
    var t := ReconcileCode(cfg, s, code, now);
    StoredDecidesAsClock(cfg, s, code, now, 0);
    forall a
      ensures HoldsCode(t, a, code) <==>
              a in s.aliases && s.aliases[a].code == code && StatusAt(cfg, s.aliases[a], now).IsLive()
    {
      StoredDecidesAsClock(cfg, s, code, now, a);
    }
    forall a ensures Carries(t, a, owner, code) <==> Carries(s, a, owner, code) {
    }
  }

  lemma {:induction false} FirstFreeOnClock(cfg: Config, s: Store, t: Store, owner: Id, codes: seq<Id>, now: Time)
    requires SameOnClock(cfg, s, t, now)
    ensures FirstFree(cfg, t, owner, codes, now) == FirstFree(cfg, s, owner, codes, now)
  {
    if codes != [] {
      forall a ensures Carries(t, a, owner, codes[0]) <==> Carries(s, a, owner, codes[0]) {
      }
      FirstFreeOnClock(cfg, s, t, owner, codes[1..], now);
    }
  }

  /**
   * Allocation gives the first code drawn that is free on the real clock, as the next
   * generation of the context for a whole lease, and fails exactly if none is free.
   */
  lemma {:induction false} AllocationTakesFirstFree(cfg: Config, s: Store, c: Id, codes: seq<Id>, newId: Id, now: Time)
    requires Inv(cfg, s, now) && Linked(s) && c in s.contexts
    ensures var r := Allocate(cfg, s, c, codes, newId, now);
            var free := FirstFree(cfg, s, s.contexts[c].owner, codes, now);
            && (r.1 <==> free.Some?)
            && (r.1 ==>
                  && newId in r.0.aliases
                  && r.0.aliases[newId] == Alias(c, s.contexts[c].owner, free.value, s.contexts[c].generation + 1,
                                                 Active, now + cfg.ttl, None, None))
    decreases codes
  {
    hide Inv, Free, ReconcileCode, SameOnClock, Works, Settles;
    if codes != [] {
      var owner := s.contexts[c].owner;
      var t := ReconcileCode(cfg, s, codes[0], now);
      FreeIsDecided(cfg, s, owner, codes[0], now);
      ReconcileCodeWorks(cfg, s, codes[0], now);
      CheckKeepsContext(cfg, s, codes[0], c, now);
      if !Free(cfg, s, owner, codes[0], now) {
        StoredDecidesAsClock(cfg, s, codes[0], now, 0);
        FirstFreeOnClock(cfg, s, t, owner, codes[1..], now);
        AllocationTakesFirstFree(cfg, t, c, codes[1..], newId, now);
      }
    }
  }

  lemma CheckKeepsContext(cfg: Config, s: Store, code: Id, c: Id, now: Time)
    requires Linked(s) && c in s.contexts
    ensures var t := ReconcileCode(cfg, s, code, now);
            c in t.contexts && t.contexts[c].(state := s.contexts[c].state) == s.contexts[c]
  {
  }

  /* ---- What a refresh answers ---- */

  /** Nothing has replaced the old code, it was not revoked, and nobody else's claim to it is alive. */
  ghost predicate MayComeBack(cfg: Config, s: Store, a: Id, now: Time)
    requires Linked(s) && a in s.aliases
  {
    var al := s.aliases[a];
    && (StatusAt(cfg, al, now).Quarantined? || StatusAt(cfg, al, now).Released?)
    && al.generation == s.contexts[al.context].generation && al.replacedBy.None?
    && forall b ::
       b != a && b in s.aliases && s.aliases[b].code == al.code ==> !StatusAt(cfg, s.aliases[b], now).IsLive()
  }

  /** The context's alias whose lease has time left on the real clock. */
  ghost predicate InForce(s: Store, a: Id, c: Id, now: Time) {
    IsCurrent(s, a, c) && now < s.aliases[a].expiresAt
  }

  /** The old code for a whole lease if it may come back, else the first free code drawn, if there is one. */
  ghost predicate RevivedAs(cfg: Config, s: Store, a: Id, codes: seq<Id>, now: Time, r: Result<Lease, Error>)
    requires Linked(s) && a in s.aliases
  {
    var al := s.aliases[a];
    if MayComeBack(cfg, s, a, now) then r == Success(Lease(al.context, al.code, al.generation, now + cfg.ttl, false))
    else
      match FirstFree(cfg, s, s.contexts[al.context].owner, codes, now)
      case None => r == Failure(AllocationExhausted)
      case Some(code) =>
        r == Success(Lease(al.context, code, s.contexts[al.context].generation + 1, now + cfg.ttl, true))
  }

  /** Stores that differ only in how late their rows were brought up to date. */
  ghost predicate SameButLate(cfg: Config, s: Store, t: Store, now: Time) {
    && SameOnClock(cfg, s, t, now)
    && (forall a :: a in s.aliases ==>
          && t.aliases[a].context == s.aliases[a].context && t.aliases[a].generation == s.aliases[a].generation
          && t.aliases[a].replacedBy == s.aliases[a].replacedBy)
    && forall c :: c in s.contexts ==>
         c in t.contexts && t.contexts[c].generation == s.contexts[c].generation
           && t.contexts[c].owner == s.contexts[c].owner
  }

  lemma ReconcileIsSameButLate(cfg: Config, s: Store, b: Id, now: Time)
    requires Inv(cfg, s, now) && Linked(s) && b in s.aliases
    ensures SameButLate(cfg, s, Reconcile(cfg, s, b, now), now)
  {
    hide SameOnClock, Inv, StatusAt;
    ReconcileIsSameOnClock(cfg, s, b, now);
  }

  lemma ReconcileCodeIsSameButLate(cfg: Config, s: Store, code: Id, now: Time)
    requires Inv(cfg, s, now) && Linked(s)
    ensures SameButLate(cfg, s, ReconcileCode(cfg, s, code, now), now)
  {
    hide Reconcile, Inv;
    if HolderOf(s, code).Some? {
      hide SameButLate;
      ReconcileIsSameButLate(cfg, s, HolderOf(s, code).value, now);
    }
  }

  lemma LateMakesNoDifference(cfg: Config, s: Store, t: Store, a: Id, codes: seq<Id>, now: Time,
                              r: Result<Lease, Error>)
    requires Linked(s) && Linked(t) && a in s.aliases && SameButLate(cfg, s, t, now)
    ensures a in t.aliases && (RevivedAs(cfg, t, a, codes, now, r) <==> RevivedAs(cfg, s, a, codes, now, r))
  {
    hide StatusAt, FirstFree;
    FirstFreeOnClock(cfg, s, t, s.contexts[s.aliases[a].context].owner, codes, now);
    assert MayComeBack(cfg, t, a, now) <==> MayComeBack(cfg, s, a, now);
  }

  /** Once the holder of the code is up to date, what is stored decides as the clock would. */
  lemma ComesBackIsDecided(cfg: Config, s: Store, a: Id, now: Time)
    requires Inv(cfg, s, now) && Linked(s) && a in s.aliases && !s.aliases[a].status.Active?
    ensures var t := ReconcileCode(cfg, s, s.aliases[a].code, now);
            && Linked(t) && a in t.aliases
            && (MayComeBack(cfg, t, a, now) <==> !CodeTaken(t, a) && MayReactivate(t, a))
  {
    hide Inv, ReconcileCode;
    var code := s.aliases[a].code;
    var t := ReconcileCode(cfg, s, code, now);
    ReconcileCodeKeepsAddress(cfg, s, code, now);
    StoredDecidesAsClock(cfg, s, code, now, a);
    StaysInactive(cfg, s, a, code, now);
    hide StatusAt;
    forall b
      ensures HoldsCode(t, b, code) <==>
              b in t.aliases && t.aliases[b].code == code && StatusAt(cfg, t.aliases[b], now).IsLive()
    {
      StoredDecidesAsClock(cfg, s, code, now, b);
    }
    assert CodeTaken(t, a) <==>
           exists b ::
             b != a && b in t.aliases && t.aliases[b].code == code && StatusAt(cfg, t.aliases[b], now).IsLive();
  }

  lemma StaysInactive(cfg: Config, s: Store, a: Id, code: Id, now: Time)
    requires Inv(cfg, s, now) && Linked(s) && a in s.aliases && !s.aliases[a].status.Active?
    ensures var t := ReconcileCode(cfg, s, code, now);
            && Linked(t) && a in t.aliases
            && var status := StatusAt(cfg, t.aliases[a], now);
               (status.Quarantined? || status.Released? <==>
                t.aliases[a].status.Quarantined? || t.aliases[a].status.Released?)
  {
  }

  lemma RotatedExactly(cfg: Config, t: Store, a: Id, codes: seq<Id>, newId: Id, now: Time)
    requires Inv(cfg, t, now) && Linked(t) && a in t.aliases && newId !in t.aliases
    ensures var r, c := Rotate(cfg, t, a, codes, newId, now).answer, t.aliases[a].context;
            match FirstFree(cfg, t, t.contexts[c].owner, codes, now)
            case None => r == Failure(AllocationExhausted)
            case Some(code) => r == Success(Lease(c, code, t.contexts[c].generation + 1, now + cfg.ttl, true))
  {
    hide Inv, Allocate, FirstFree;
    var c := t.aliases[a].context;
    AllocationTakesFirstFree(cfg, t, c, codes, newId, now);
  }

  lemma RevivedExactly(cfg: Config, s: Store, a: Id, codes: seq<Id>, newId: Id, now: Time)
    requires Inv(cfg, s, now) && Linked(s) && a in s.aliases && !s.aliases[a].status.Active? && newId !in s.aliases
    ensures RevivedAs(cfg, s, a, codes, now, Revive(cfg, s, a, codes, newId, now).answer)
  {
    hide Inv, ReconcileCode, CodeTaken, MayReactivate, MayComeBack, FirstFree, Rotate, SameOnClock;
    var t := ReconcileCode(cfg, s, s.aliases[a].code, now);
    ReconcileCodeIsSameButLate(cfg, s, s.aliases[a].code, now);
    ReconcileCodeWorks(cfg, s, s.aliases[a].code, now);
    ComesBackIsDecided(cfg, s, a, now);
    assert newId !in t.aliases by { SameRows(cfg, s, t, now); }
    RotatedExactly(cfg, t, a, codes, newId, now);
    LateMakesNoDifference(cfg, s, t, a, codes, now, Revive(cfg, s, a, codes, newId, now).answer);
  }

  lemma SameRows(cfg: Config, s: Store, t: Store, now: Time)
    requires SameOnClock(cfg, s, t, now)
    ensures t.aliases.Keys == s.aliases.Keys
  {
  }

  /** Bringing a row up to date leaves the alias in force as it is. */
  lemma InForceStays(cfg: Config, s: Store, b: Id, x: Id, c: Id, now: Time)
    requires Linked(s) && b in s.aliases
    ensures var t := Reconcile(cfg, s, b, now);
            && (InForce(t, x, c, now) <==> InForce(s, x, c, now))
            && (InForce(s, x, c, now) ==> x in s.aliases && x in t.aliases && t.aliases[x] == s.aliases[x])
            && (IsCurrent(t, x, c) ==> IsCurrent(s, x, c))
            && (IsCurrent(t, b, c) ==> InForce(t, b, c, now))
  {
  }

  lemma OneInForce(cfg: Config, s: Store, x: Id, c: Id, now: Time)
    requires Inv(cfg, s, now)
    ensures InForce(s, x, c, now) ==> CurrentOf(s, c) == Some(x)
  {
    hide Inv;
    if InForce(s, x, c, now) {
      OneCurrent(cfg, s, x, CurrentOf(s, c).value, c, now);
    }
  }

  /**
   * A refresh of a known code of an open context answers with the alias in force,
   * its lease prolonged, if there is one. Otherwise the old code comes back exactly
   * when it may, and if it may not the first free code drawn takes its place.
   */
  lemma OldCodeComesBackExactly(cfg: Config, s: Store, owner: Id, code: Id, codes: seq<Id>, newId: Id, now: Time)
    requires Inv(cfg, s, now) && Linked(s) && AliasFor(s, owner, code).Some? && newId !in s.aliases
    requires !s.contexts[s.aliases[AliasFor(s, owner, code).value].context].state.Closed?
    ensures var a, r := AliasFor(s, owner, code).value, Refresh(cfg, s, owner, code, codes, newId, now).answer;
            var c := s.aliases[a].context;
            && (forall x :: InForce(s, x, c, now) ==>
                  r == Success(Lease(c, s.aliases[x].code, s.aliases[x].generation,
                                     Max(s.aliases[x].expiresAt, now + cfg.ttl), x != a)))
            && ((forall x :: !InForce(s, x, c, now)) ==> RevivedAs(cfg, s, a, codes, now, r))
  {
    hide Inv, Reconcile, RefreshSettled, RevivedAs, InForce, SameButLate;
    var a := AliasFor(s, owner, code).value;
    var c := s.aliases[a].context;
    var t := Reconcile(cfg, s, a, now);
    ReconcileWorks(cfg, s, a, now);
    InvLinks(cfg, t, now);
    ReconcileIsSameButLate(cfg, s, a, now);
    assert a in t.aliases && t.aliases[a].context == c && newId !in t.aliases by {
      RowsAreThere(cfg, s, t, a, newId, now);
    }
    InForceStays(cfg, s, a, a, c, now);
    forall x ensures InForce(t, x, c, now) <==> InForce(s, x, c, now)
      ensures InForce(s, x, c, now) ==> x in s.aliases && x in t.aliases && t.aliases[x] == s.aliases[x]
    {
      InForceStays(cfg, s, a, x, c, now);
    }
    RefreshedExactly(cfg, t, a, codes, newId, now);
    LateMakesNoDifference(cfg, s, t, a, codes, now, RefreshSettled(cfg, t, a, codes, newId, now).answer);
  }

  lemma RowsAreThere(cfg: Config, s: Store, t: Store, a: Id, newId: Id, now: Time)
    requires SameButLate(cfg, s, t, now) && a in s.aliases && newId !in s.aliases
    ensures a in t.aliases && t.aliases[a].context == s.aliases[a].context && newId !in t.aliases
  {
  }

  lemma RefreshedExactly(cfg: Config, t: Store, a: Id, codes: seq<Id>, newId: Id, now: Time)
    requires Inv(cfg, t, now) && Linked(t) && a in t.aliases && newId !in t.aliases
    requires IsCurrent(t, a, t.aliases[a].context) ==> InForce(t, a, t.aliases[a].context, now)
    ensures var r, c := RefreshSettled(cfg, t, a, codes, newId, now).answer, t.aliases[a].context;
            && (forall x :: InForce(t, x, c, now) ==>
                  r == Success(Lease(c, t.aliases[x].code, t.aliases[x].generation,
                                     Max(t.aliases[x].expiresAt, now + cfg.ttl), x != a)))
            && ((forall x :: !InForce(t, x, c, now)) ==> RevivedAs(cfg, t, a, codes, now, r))
  {
    hide Inv, Reconcile, Renew, Revive, RevivedAs, InForce, SameButLate;
    var c := t.aliases[a].context;
    var current := CurrentOf(t, c);
    forall x: Id ensures InForce(t, x, c, now) ==> current == Some(x) {
      OneInForce(cfg, t, x, c, now);
    }
    if current.None? {
      RevivedExactly(cfg, t, a, codes, newId, now);
    } else {
      var b := current.value;
      var u := Reconcile(cfg, t, b, now);
      ReconcileWorks(cfg, t, b, now);
      InvLinks(cfg, u, now);
      ReconcileIsSameButLate(cfg, t, b, now);
      RowsAreThere(cfg, t, u, a, newId, now);
      RowsAreThere(cfg, t, u, b, newId, now);
      InForceStays(cfg, t, b, b, c, now);
      if u.aliases[b].status.Active? {
        ForcedRenewal(cfg, u, b, now, b != a);
      } else {
        assert !InForce(u, b, c, now) by { NotInForce(u, b, c, now); }
        assert !u.aliases[a].status.Active? by { InForceStays(cfg, t, b, a, c, now); }
        RevivedExactly(cfg, u, a, codes, newId, now);
        LateMakesNoDifference(cfg, t, u, a, codes, now, RefreshSettled(cfg, t, a, codes, newId, now).answer);
      }
    }
  }

  lemma NotInForce(u: Store, b: Id, c: Id, now: Time)
    requires b in u.aliases && !u.aliases[b].status.Active?
    ensures !InForce(u, b, c, now)
  {
  }

  lemma ForcedRenewal(cfg: Config, u: Store, b: Id, now: Time, rotated: bool)
    requires Linked(u) && b in u.aliases
    ensures var renewed := Renew(cfg, u, b, now, true); var al := u.aliases[b];
            b in renewed.aliases
            && LeaseOn(renewed, b, rotated) ==
               Lease(al.context, al.code, al.generation, Max(al.expiresAt, now + cfg.ttl), rotated)
  {
  }

  /* ---- What a context and a creation are answered with ---- */

  /** The first lease of a context: the first free code drawn, if there is one. */
  ghost predicate StartedAs(cfg: Config, s: Store, c: Id, codes: seq<Id>, now: Time, r: Result<Lease, Error>)
    requires c in s.contexts
  {
    match FirstFree(cfg, s, s.contexts[c].owner, codes, now)
    case None => r == Failure(AllocationExhausted)
    case Some(code) => r == Success(Lease(c, code, s.contexts[c].generation + 1, now + cfg.ttl, false))
  }

  /** With an alias of the latest generation it is revived, without one the context gets its first. */
  ghost predicate RestoredAs(cfg: Config, s: Store, c: Id, codes: seq<Id>, now: Time, r: Result<Lease, Error>)
    requires Linked(s) && c in s.contexts
  {
    && (forall x :: IsLatest(s, x, c) ==> RevivedAs(cfg, s, x, codes, now, r))
    && ((forall x :: x in s.aliases ==> s.aliases[x].context != c) ==> StartedAs(cfg, s, c, codes, now, r))
  }

  lemma StartedExactly(cfg: Config, s: Store, c: Id, codes: seq<Id>, newId: Id, now: Time)
    requires Inv(cfg, s, now) && Linked(s) && c in s.contexts
    ensures StartedAs(cfg, s, c, codes, now, FirstAlias(cfg, s, c, codes, newId, now).answer)
  {
    hide Inv, Allocate, FirstFree;
    AllocationTakesFirstFree(cfg, s, c, codes, newId, now);
  }

  lemma LatestIsFound(cfg: Config, s: Store, c: Id, x: Id, now: Time)
    requires Inv(cfg, s, now) && Linked(s) && c in s.contexts && IsLatest(s, x, c)
    ensures AliasFor(s, s.contexts[c].owner, s.aliases[x].code) == Some(x)
    ensures forall y :: IsLatest(s, y, c) ==> y == x
  {
    hide LastStatus, TimesOk;
    assert AliasOk(cfg, s, x, now);
    assert Carries(s, x, s.contexts[c].owner, s.aliases[x].code);
    var y := AliasFor(s, s.contexts[c].owner, s.aliases[x].code).value;
    assert y != x ==> Apart(s.aliases[x], s.aliases[y]);
    forall y | IsLatest(s, y, c) ensures y == x {
      assert y != x ==> Apart(s.aliases[x], s.aliases[y]);
    }
  }

  lemma SomeIsLatest(cfg: Config, s: Store, c: Id, x: Id, now: Time)
    requires Inv(cfg, s, now) && Linked(s) && x in s.aliases && s.aliases[x].context == c
    ensures exists y :: IsLatest(s, y, c)
  {
    hide LastStatus, TimesOk;
    assert AliasOk(cfg, s, x, now);
    assert HasGeneration(s, c, s.contexts[c].generation);
    var y :| y in s.aliases && s.aliases[y].context == c && s.aliases[y].generation == s.contexts[c].generation;
    forall z | z in s.aliases && s.aliases[z].context == c ensures s.aliases[z].generation <= s.aliases[y].generation {
      assert AliasOk(cfg, s, z, now);
    }
    assert IsLatest(s, y, c);
  }

  lemma RestoredExactly(cfg: Config, s: Store, c: Id, codes: seq<Id>, newId: Id, now: Time)
    requires Inv(cfg, s, now) && Linked(s) && c in s.contexts && newId !in s.aliases
    requires !s.contexts[c].state.Closed? && forall x :: !InForce(s, x, c, now)
    ensures RestoredAs(cfg, s, c, codes, now, EnsureRest(cfg, s, c, s.contexts[c].owner, codes, newId, now).answer)
  {
    hide Inv, Refresh, FirstAlias, RevivedAs, StartedAs, InForce;
    if exists x :: IsLatest(s, x, c) {
      var x :| IsLatest(s, x, c) && EnsureRest(cfg, s, c, s.contexts[c].owner, codes, newId, now)
                                    == Refresh(cfg, s, s.contexts[c].owner, s.aliases[x].code, codes, newId, now);
      LatestIsFound(cfg, s, c, x, now);
      OldCodeComesBackExactly(cfg, s, s.contexts[c].owner, s.aliases[x].code, codes, newId, now);
    } else {
      forall x | x in s.aliases ensures s.aliases[x].context != c {
        if s.aliases[x].context == c {
          SomeIsLatest(cfg, s, c, x, now);
        }
      }
      StartedExactly(cfg, s, c, codes, newId, now);
    }
  }

  lemma LateRestoresAlike(cfg: Config, s: Store, t: Store, c: Id, codes: seq<Id>, now: Time, r: Result<Lease, Error>)
    requires Linked(s) && Linked(t) && c in s.contexts && SameButLate(cfg, s, t, now)
    ensures c in t.contexts && (RestoredAs(cfg, t, c, codes, now, r) ==> RestoredAs(cfg, s, c, codes, now, r))
  {
    hide StatusAt, FirstFree, RevivedAs;
    FirstFreeOnClock(cfg, s, t, s.contexts[c].owner, codes, now);
    forall x | IsLatest(s, x, c)
      ensures IsLatest(t, x, c) && (RevivedAs(cfg, t, x, codes, now, r) ==> RevivedAs(cfg, s, x, codes, now, r))
    {
      LateMakesNoDifference(cfg, s, t, x, codes, now, r);
    }
  }

  /**
   * What a request for a context's lease answers. A closed context is refused. The
   * alias in force is answered, prolonged if little time is left; without one the
   * latest alias is revived or replaced; and a context without any gets its first.
   */
  lemma EnsuredExactly(cfg: Config, s: Store, c: Id, codes: seq<Id>, newId: Id, now: Time)
    requires Inv(cfg, s, now) && Linked(s) && c in s.contexts && newId !in s.aliases
    ensures var r := EnsureAlias(cfg, s, c, codes, newId, now).answer;
            && (s.contexts[c].state.Closed? ==> r == Failure(ContextClosed))
            && (!s.contexts[c].state.Closed? ==>
                  && (forall x :: InForce(s, x, c, now) ==>
                        r == Success(Lease(c, s.aliases[x].code, s.aliases[x].generation,
                                           RenewedExpiry(cfg, s.aliases[x].expiresAt, now), false)))
                  && ((forall x :: !InForce(s, x, c, now)) ==> RestoredAs(cfg, s, c, codes, now, r)))
  {
    hide Inv, Reconcile, Renew, EnsureRest, RestoredAs, InForce, SameButLate, RenewedExpiry;
    if !s.contexts[c].state.Closed? {
      var current := CurrentOf(s, c);
      forall x: Id ensures InForce(s, x, c, now) ==> current == Some(x) {
        OneInForce(cfg, s, x, c, now);
      }
      if current.None? {
        RestoredExactly(cfg, s, c, codes, newId, now);
      } else {
        EnsuredByCurrent(cfg, s, c, codes, newId, now);
      }
    }
  }

  lemma EnsuredByCurrent(cfg: Config, s: Store, c: Id, codes: seq<Id>, newId: Id, now: Time)
    requires Inv(cfg, s, now) && Linked(s) && c in s.contexts && newId !in s.aliases
    requires !s.contexts[c].state.Closed? && CurrentOf(s, c).Some?
    ensures var r, x := EnsureAlias(cfg, s, c, codes, newId, now).answer, CurrentOf(s, c).value;
            if InForce(s, x, c, now) then
              r == Success(Lease(c, s.aliases[x].code, s.aliases[x].generation,
                                 RenewedExpiry(cfg, s.aliases[x].expiresAt, now), false))
            else RestoredAs(cfg, s, c, codes, now, r)
  {
    hide Inv, Reconcile, Renew, EnsureRest, RestoredAs, InForce, SameButLate, RenewedExpiry;
    var b := CurrentOf(s, c).value;
    var u := Reconcile(cfg, s, b, now);
    ReconcileWorks(cfg, s, b, now);
    InvLinks(cfg, u, now);
    ReconcileIsSameButLate(cfg, s, b, now);
    RowsAreThere(cfg, s, u, b, newId, now);
    InForceStays(cfg, s, b, b, c, now);
    if u.aliases[b].status.Active? {
      UsualRenewal(cfg, u, b, now);
    } else {
      assert !InForce(u, b, c, now) by { NotInForce(u, b, c, now); }
      forall x ensures !InForce(u, x, c, now) {
        InForceStays(cfg, s, b, x, c, now);
        OneInForce(cfg, s, x, c, now);
      }
      OpenStays(cfg, s, b, c, now);
      RestoredExactly(cfg, u, c, codes, newId, now);
      LateRestoresAlike(cfg, s, u, c, codes, now, EnsureAlias(cfg, s, c, codes, newId, now).answer);
    }
  }

  lemma OpenStays(cfg: Config, s: Store, b: Id, c: Id, now: Time)
    requires Linked(s) && b in s.aliases && c in s.contexts && !s.contexts[c].state.Closed?
    ensures var u := Reconcile(cfg, s, b, now);
            c in u.contexts && !u.contexts[c].state.Closed? && u.contexts[c].owner == s.contexts[c].owner
  {
  }

  lemma UsualRenewal(cfg: Config, u: Store, b: Id, now: Time)
    requires Linked(u) && b in u.aliases
    ensures var renewed, al := Renew(cfg, u, b, now, false), u.aliases[b];
            b in renewed.aliases
            && LeaseOn(renewed, b, false) ==
               Lease(al.context, al.code, al.generation, RenewedExpiry(cfg, al.expiresAt, now), false)
  {
  }

  /** A success names the context that was asked for. */
  lemma EnsureNamesContext(cfg: Config, s: Store, c: Id, codes: seq<Id>, newId: Id, now: Time)
    requires Inv(cfg, s, now) && Linked(s) && c in s.contexts && newId !in s.aliases
    requires EnsureAlias(cfg, s, c, codes, newId, now).answer.Success?
    ensures EnsureAlias(cfg, s, c, codes, newId, now).answer.value.context == c
  {
    hide Inv, EnsureAlias, FirstFree, MayComeBack, InForce, RenewedExpiry;
    EnsuredExactly(cfg, s, c, codes, newId, now);
    if forall x :: !InForce(s, x, c, now) {
      if x :| x in s.aliases && s.aliases[x].context == c {
        SomeIsLatest(cfg, s, c, x, now);
        var y :| IsLatest(s, y, c);
        assert RevivedAs(cfg, s, y, codes, now, EnsureAlias(cfg, s, c, codes, newId, now).answer);
      }
    }
  }

  /* ---- Repeating a creation ---- */

  lemma ReconcileAddsNone(cfg: Config, s: Store, a: Id, now: Time)
    requires Linked(s) && a in s.aliases
    ensures var t := Reconcile(cfg, s, a, now); Linked(t) && t.contexts.Keys == s.contexts.Keys
  {
  }

  lemma {:induction false} AllocateAddsNone(cfg: Config, s: Store, c: Id, codes: seq<Id>, newId: Id, now: Time)
    requires Linked(s) && c in s.contexts
    ensures Allocate(cfg, s, c, codes, newId, now).0.contexts.Keys == s.contexts.Keys
    decreases codes
  {
    hide Reconcile;
    if codes != [] {
      var t := ReconcileCode(cfg, s, codes[0], now);
      if HolderOf(s, codes[0]).Some? {
        ReconcileAddsNone(cfg, s, HolderOf(s, codes[0]).value, now);
      }
      AllocateAddsNone(cfg, t, c, codes[1..], newId, now);
    }
  }

  lemma ReviveAddsNone(cfg: Config, s: Store, a: Id, codes: seq<Id>, newId: Id, now: Time)
    requires Linked(s) && a in s.aliases
    ensures Revive(cfg, s, a, codes, newId, now).store.contexts.Keys == s.contexts.Keys
  {
    hide Reconcile, Allocate, CodeTaken, MayReactivate;
    var code := s.aliases[a].code;
    var t := ReconcileCode(cfg, s, code, now);
    if HolderOf(s, code).Some? {
      ReconcileAddsNone(cfg, s, HolderOf(s, code).value, now);
    }
    ReconcileCodeKeepsAddress(cfg, s, code, now);
    AllocateAddsNone(cfg, t, t.aliases[a].context, codes, newId, now);
  }

  lemma RefreshAddsNone(cfg: Config, s: Store, owner: Id, code: Id, codes: seq<Id>, newId: Id, now: Time)
    requires Linked(s)
    ensures Refresh(cfg, s, owner, code, codes, newId, now).store.contexts.Keys == s.contexts.Keys
  {
    hide Reconcile, Revive;
    var found := AliasFor(s, owner, code);
    if found.Some? {
      var t := Reconcile(cfg, s, found.value, now);
      ReconcileAddsNone(cfg, s, found.value, now);
      ReconcileKeepsAddress(cfg, s, found.value, now);
      var current := CurrentOf(t, t.aliases[found.value].context);
      if current.None? {
        ReviveAddsNone(cfg, t, found.value, codes, newId, now);
      } else {
        var u := Reconcile(cfg, t, current.value, now);
        ReconcileAddsNone(cfg, t, current.value, now);
        ReconcileKeepsAddress(cfg, t, current.value, now);
        ReviveAddsNone(cfg, u, found.value, codes, newId, now);
      }
    }
  }

  lemma EnsureAddsNone(cfg: Config, s: Store, c: Id, codes: seq<Id>, newId: Id, now: Time)
    requires Linked(s) && c in s.contexts
    ensures EnsureAlias(cfg, s, c, codes, newId, now).store.contexts.Keys == s.contexts.Keys
  {
    hide Reconcile, EnsureRest;
    var current := CurrentOf(s, c);
    var t := if current.Some? then Reconcile(cfg, s, current.value, now) else s;
    if current.Some? {
      ReconcileAddsNone(cfg, s, current.value, now);
      ReconcileKeepsAddress(cfg, s, current.value, now);
    }
    EnsureRestAddsNone(cfg, t, c, s.contexts[c].owner, codes, newId, now);
  }

  lemma EnsureRestAddsNone(cfg: Config, t: Store, c: Id, owner: Id, codes: seq<Id>, newId: Id, now: Time)
    requires Linked(t) && c in t.contexts
    ensures EnsureRest(cfg, t, c, owner, codes, newId, now).store.contexts.Keys == t.contexts.Keys
  {
    hide Refresh, Allocate;
    AllocateAddsNone(cfg, t, c, codes, newId, now);
    forall x | x in t.aliases {
      RefreshAddsNone(cfg, t, owner, t.aliases[x].code, codes, newId, now);
    }
  }

  /** The context that was made under the nonce. */
  ghost predicate MadeWith(s: Store, c: Id, owner: Id, nonce: Id) {
    c in s.contexts && s.contexts[c].owner == owner && s.contexts[c].nonce == Some(nonce)
  }

  /** A creation with a nonce that is known adds no context, and a success names the known one. */
  lemma KnownNonceIsFound(cfg: Config, h: Digests, s: Store, c: Id, owner: Id, nonce: Id, codes: seq<Id>,
                          newContext: Id, newAlias: Id, now: Time)
    requires Inv(cfg, s, now) && Linked(s) && OneToOne(h, s) && newAlias !in s.aliases && MadeWith(s, c, owner, nonce)
    ensures var o := CreateContext(cfg, s, owner, Some(nonce), codes, newContext, newAlias, now);
            && o.store.contexts.Keys == s.contexts.Keys
            && (o.answer.Success? ==> o.answer.value.context == c)
  {
    hide Inv, EnsureAlias, FirstAlias;
    var d :| d in s.contexts && s.contexts[d].owner == owner && s.contexts[d].nonce == Some(nonce)
             && CreateContext(cfg, s, owner, Some(nonce), codes, newContext, newAlias, now)
                == EnsureAlias(cfg, s, d, codes, newAlias, now);
    assert c != d ==> SameNonce(s.contexts[c], s.contexts[d]);
    EnsureAddsNone(cfg, s, c, codes, newAlias, now);
    if EnsureAlias(cfg, s, c, codes, newAlias, now).answer.Success? {
      EnsureNamesContext(cfg, s, c, codes, newAlias, now);
    }
  }

  /** A creation that succeeds names a context of this owner made with this nonce, a new one if there was none. */
  lemma CreationNamesContext(cfg: Config, h: Digests, s: Store, owner: Id, nonce: Option<Id>, codes: seq<Id>,
                             newContext: Id, newAlias: Id, now: Time)
    requires ValidConfig(cfg) && Inv(cfg, s, now) && Linked(s) && OneToOne(h, s)
    requires newContext !in s.contexts && newAlias !in s.aliases
    requires CreateContext(cfg, s, owner, nonce, codes, newContext, newAlias, now).answer.Success?
    ensures var o := CreateContext(cfg, s, owner, nonce, codes, newContext, newAlias, now);
            var c := o.answer.value.context;
            && c in o.store.contexts && o.store.contexts[c].owner == owner
            && (nonce.Some? ==> MadeWith(o.store, c, owner, nonce.value))
            && (nonce.Some? && (exists d :: MadeWith(s, d, owner, nonce.value)) ==> MadeWith(s, c, owner, nonce.value))
            && (nonce.None? || (forall d :: !MadeWith(s, d, owner, nonce.value)) ==>
                  c == newContext && o.store.contexts.Keys == s.contexts.Keys + {newContext})
  {
    hide Inv, EnsureAlias, Works;
    CreateServes(cfg, s, owner, nonce, codes, newContext, newAlias, now);
    var o := CreateContext(cfg, s, owner, nonce, codes, newContext, newAlias, now);
    if nonce.Some? && exists d :: MadeWith(s, d, owner, nonce.value) {
      var d :| MadeWith(s, d, owner, nonce.value);
      KnownNonceIsFound(cfg, h, s, d, owner, nonce.value, codes, newContext, newAlias, now);
      ContextKept(s, o.store, d);
    } else {
      assert nonce.Some? ==>
               forall d :: d in s.contexts ==> !(s.contexts[d].owner == owner && s.contexts[d].nonce == nonce) by {
        forall d | d in s.contexts && nonce.Some?
          ensures !(s.contexts[d].owner == owner && s.contexts[d].nonce == nonce)
        {
          assert !MadeWith(s, d, owner, nonce.value);
        }
      }
      NewContextIsStarted(cfg, s, owner, nonce, codes, newContext, newAlias, now);
    }
  }

  lemma ContextKept(s: Store, t: Store, c: Id)
    requires Works(s, t) && c in s.contexts
    ensures c in t.contexts && t.contexts[c].owner == s.contexts[c].owner && t.contexts[c].nonce == s.contexts[c].nonce
  {
    assert ContextAdvances(s.contexts[c], t.contexts[c]);
  }

  lemma NewContextIsStarted(cfg: Config, s: Store, owner: Id, nonce: Option<Id>, codes: seq<Id>, newContext: Id,
                            newAlias: Id, now: Time)
    requires ValidConfig(cfg) && Inv(cfg, s, now) && Linked(s) && newContext !in s.contexts && newAlias !in s.aliases
    requires nonce.Some? ==>
               forall d :: d in s.contexts ==> !(s.contexts[d].owner == owner && s.contexts[d].nonce == nonce)
    ensures var o := FirstAlias(cfg, AddContext(s, owner, nonce, newContext), newContext, codes, newAlias, now);
            && o.store.contexts.Keys == s.contexts.Keys + {newContext}
            && o.store.contexts[newContext].owner == owner && o.store.contexts[newContext].nonce == nonce
            && (o.answer.Success? ==> o.answer.value.context == newContext)
  {
    hide Inv, Allocate, Works, FirstFree;
    var t := AddContext(s, owner, nonce, newContext);
    AddContextWorks(cfg, s, owner, nonce, newContext, now);
    AllocateAddsNone(cfg, t, newContext, codes, newAlias, now);
    FirstAliasServes(cfg, t, newContext, codes, newAlias, now);
    ContextKept(t, FirstAlias(cfg, t, newContext, codes, newAlias, now).store, newContext);
    StartedExactly(cfg, t, newContext, codes, newAlias, now);
  }

  /**
   * Repeating a creation with its nonce, however much later and whatever happened in
   * between, adds no context, and if it succeeds it names the context of the first.
   */
  lemma RepeatedCreationIsSame(cfg: Config, h: Digests, s: Store, clock: Time, first: Request, now: Time,
                               events: seq<Event>, t: Store, end: Time, codes: seq<Id>, newContext: Id, newAlias: Id,
                               later: Time)
    requires ValidConfig(cfg) && CollisionFree(h) && Good(cfg, h, s, clock) && Linked(s) && clock <= now
    requires first.DoCreate? && first.nonce.Some? && FreshIds(s, first)
    requires var o :=
             CreateContext(cfg, s, first.owner, first.nonce, first.codes, first.newContext, first.newAlias, now);
             o.answer.Success? && Leads(cfg, h, o.store, now, events, t, end)
    requires end <= later && Linked(t) && newAlias !in t.aliases
    ensures var o :=
            CreateContext(cfg, s, first.owner, first.nonce, first.codes, first.newContext, first.newAlias, now);
            var again := CreateContext(cfg, t, first.owner, first.nonce, codes, newContext, newAlias, later);
            && again.store.contexts.Keys == t.contexts.Keys
            && (again.answer.Success? ==> again.answer.value.context == o.answer.value.context)
  {
    hide Inv, OneToOne, CreateContext, Leads, Advances;
    var o := CreateContext(cfg, s, first.owner, first.nonce, first.codes, first.newContext, first.newAlias, now);
    var c := o.answer.value.context;
    InvLater(cfg, s, clock, now);
    CreationNamesContext(cfg, h, s, first.owner, first.nonce, first.codes, first.newContext, first.newAlias, now);
    EffectKeepsGood(cfg, h, s, first, now);
    RunKeepsGood(cfg, h, o.store, now, events, t, end);
    NonceKept(o.store, t, c);
    InvLater(cfg, t, end, later);
    KnownNonceIsFound(cfg, h, t, c, first.owner, first.nonce.value, codes, newContext, newAlias, later);
  }

  lemma NonceKept(s: Store, t: Store, c: Id)
    requires Advances(s, t) && c in s.contexts
    ensures c in t.contexts && t.contexts[c].owner == s.contexts[c].owner && t.contexts[c].nonce == s.contexts[c].nonce
  {
    assert ContextAdvances(s.contexts[c], t.contexts[c]);
  }

  /* ---- Closing ---- */

  /** Resolving a code at a time when its lease has run out reopens a closed context as dormant. */
  lemma OverdueAliasReopens(cfg: Config, s: Store, a: Id, clock: Time, now: Time)
    requires Inv(cfg, s, clock) && Linked(s) && a in s.aliases && IsCurrent(s, a, s.aliases[a].context)
             && s.aliases[a].expiresAt <= now
    ensures var al := s.aliases[a];
            Resolve(cfg, s, al.owner, al.code, now).store.contexts[al.context].state.Dormant?
    ensures Resolve(cfg, s, s.aliases[a].owner, s.aliases[a].code, now).answer == Failure(AliasExpired)
  {
    hide AliasOk;
    var found := AliasFor(s, s.aliases[a].owner, s.aliases[a].code);
    assert Carries(s, a, s.aliases[a].owner, s.aliases[a].code);
    assert a != found.value ==> Apart(s.aliases[a], s.aliases[found.value]);
  }

  ghost predicate ClosedInEveryFuture(cfg: Config, h: Digests, s: Store, clock: Time, c: Id) {
    forall events, t, end :: Leads(cfg, h, s, clock, events, t, end) ==> c in t.contexts && t.contexts[c].state.Closed?
  }

  /** Closing is final exactly for a context that has no active alias at that moment. */
  lemma ClosedIsFinalExactly(cfg: Config, h: Digests, s: Store, clock: Time, c: Id)
    requires ValidConfig(cfg) && CollisionFree(h) && Good(cfg, h, s, clock) && Linked(s)
    requires c in s.contexts && s.contexts[c].state.Closed?
    ensures ClosedInEveryFuture(cfg, h, s, clock, c) <==> CurrentOf(s, c).None?
  {
    hide Inv, OneToOne, Resolve;
    if CurrentOf(s, c).None? {
      forall events, t, end | Leads(cfg, h, s, clock, events, t, end)
        ensures c in t.contexts && t.contexts[c].state.Closed?
      {
        assert ClosedForGood(s, c);
        RunKeepsGood(cfg, h, s, clock, events, t, end);
        assert ClosedForGood(t, c);
      }
    } else {
      var a := CurrentOf(s, c).value;
      var al := s.aliases[a];
      var now := Max(clock, al.expiresAt);
      OverdueAliasReopens(cfg, s, a, clock, now);
      var e := Event(DoResolve(al.owner, al.code), now, true);
      var t := Apply(cfg, h, s, e);
      assert Leads(cfg, h, t, now, [], t, now);
      assert [e][1..] == [];
      assert Leads(cfg, h, s, clock, [e], t, now);
      ResolveServes(cfg, s, al.owner, al.code, now) by {
        InvLater(cfg, s, clock, now);
      }
      assert t.contexts[c].state.Dormant?;
    }
  }

  /* ---- Conversations ---- */

  /**
   * A conversation once bound leads to its context for ever after, or to the news
   * that the context is closed, whatever key versions are in use later on.
   */
  lemma BoundForEver(cfg: Config, h: Digests, s: Store, clock: Time, events: seq<Event>, t: Store, end: Time,
                     owner: Id, c: Id, ref: Id, version: nat)
    requires ValidConfig(cfg) && CollisionFree(h) && Good(cfg, h, s, clock)
    requires Bind(h, s, owner, c, ref, version).1.Success?
    requires Leads(cfg, h, Bind(h, s, owner, c, ref, version).0, clock, events, t, end)
    ensures c in t.contexts
    ensures ResolveConversation(h, t, owner, ref) ==
            if t.contexts[c].state.Closed? then Failure(ContextClosed) else Success(c)
  {
    hide Inv, OneToOne, Bind, Leads, Advances, CollisionFree, ResolveConversation;
    var bound := Bind(h, s, owner, c, ref, version).0;
    BindKeepsOneToOne(h, s, owner, c, ref, version);
    BindWorks(cfg, h, s, owner, c, ref, version, clock);
    BindMatches(h, s, owner, c, ref, version);
    RunKeepsGood(cfg, h, bound, clock, events, t, end);
    MatchStays(h, bound, t, c, owner, ref);
    BoundResolves(h, t, owner, c, ref);
  }

  lemma MatchStays(h: Digests, s: Store, t: Store, c: Id, owner: Id, ref: Id)
    requires Advances(s, t) && Matches(h, s, c, owner, CHATGPT, ref)
    ensures Matches(h, t, c, owner, CHATGPT, ref)
  {
    assert ContextAdvances(s.contexts[c], t.contexts[c]);
  }

  /* ---- Histories ---- */

  /** At any time the log alone tells the stored status of every alias. */
  lemma LogTellsEveryStatus(cfg: Config, h: Digests, s: Store, clock: Time, events: seq<Event>, t: Store, end: Time,
                            a: Id)
    requires ValidConfig(cfg) && CollisionFree(h) && Good(cfg, h, s, clock) && Leads(cfg, h, s, clock, events, t, end)
    requires a in t.aliases
    ensures LastStatus(t.log, t.aliases[a].context, t.aliases[a].generation) == Some(t.aliases[a].status)
  {
    hide Leads, Advances, LastStatus, OneToOne;
    RunKeepsGood(cfg, h, s, clock, events, t, end);
    assert AliasOk(cfg, t, a, end);
  }

  /** Along a run an alias keeps its context and its code, its expiry never moves back, and revocation is final. */
  lemma AliasesOnlyAdvance(cfg: Config, h: Digests, s: Store, clock: Time, events: seq<Event>, t: Store, end: Time,
                           a: Id)
    requires ValidConfig(cfg) && CollisionFree(h) && Good(cfg, h, s, clock) && Leads(cfg, h, s, clock, events, t, end)
    requires a in s.aliases
    ensures a in t.aliases && AliasAdvances(s.aliases[a], t.aliases[a])
  {
    hide Leads, Good;
    RunKeepsGood(cfg, h, s, clock, events, t, end);
  }

  /* ---- Leases ---- */

  /**
   * A lease is never handed out with the threshold or less left on it, nor with more
   * than the time to live. This needs the start-up check: for a first lease it says
   * the same as that check.
   */
  lemma LeaseTimesNeedValidConfig(cfg: Config, s: Store, c: Id, codes: seq<Id>, newId: Id, now: Time)
    requires Inv(cfg, s, now) && Linked(s) && c in s.contexts && newId !in s.aliases
    requires !s.contexts[c].state.Closed? && CurrentOf(s, c).None?
             && FirstAlias(cfg, s, c, codes, newId, now).answer.Success?
    ensures cfg.threshold < FirstAlias(cfg, s, c, codes, newId, now).answer.value.expiresAt - now <= cfg.ttl <==>
            ValidConfig(cfg)
  {
    hide Inv, Allocate, Works;
    AllocateWorks(cfg, s, c, codes, newId, now);
  }
}
