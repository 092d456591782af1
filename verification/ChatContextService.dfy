/**
 * The chat-context service over its tables. The clock reading, the codes drawn and
 * the ids of new rows are given to each request; a request that fails leaves in the
 * session what it did before failing.
 */
module ChatContextService {
  import opened Common
  import opened ChatAliases
  import opened ChatAliasLaws
  import opened ChatBindings
  import opened ChatRuns

  lemma TheAlias(cfg: Config, s: Store, a: Id, owner: Id, code: Id, clock: Time)
    requires Inv(cfg, s, clock) && Carries(s, a, owner, code)
    ensures AliasFor(s, owner, code) == Some(a)
  {
    hide AliasOk;
    var found := AliasFor(s, owner, code).value;
    assert a != found ==> Apart(s.aliases[a], s.aliases[found]);
  }

  lemma TheCurrent(cfg: Config, s: Store, a: Id, c: Id, clock: Time)
    requires Inv(cfg, s, clock) && IsCurrent(s, a, c)
    ensures CurrentOf(s, c) == Some(a)
  {
    OneCurrent(cfg, s, a, CurrentOf(s, c).value, c, clock);
  }

  lemma TheHolder(cfg: Config, s: Store, a: Id, code: Id, clock: Time)
    requires Inv(cfg, s, clock) && HoldsCode(s, a, code)
    ensures HolderOf(s, code) == Some(a)
    ensures forall b :: HoldsCode(s, b, code) ==> b == a
  {
    hide AliasOk;
    forall b | HoldsCode(s, b, code) ensures b == a {
      assert a != b ==> Apart(s.aliases[a], s.aliases[b]);
    }
  }

  lemma TheLatest(cfg: Config, s: Store, a: Id, b: Id, c: Id, clock: Time)
    requires Inv(cfg, s, clock) && IsLatest(s, a, c) && IsLatest(s, b, c)
    ensures a == b
  {
    hide AliasOk;
    assert a != b ==> Apart(s.aliases[a], s.aliases[b]);
  }

  class ChatContexts {
    const cfg: Config
    const digests: Digests
    var contexts: map<Id, Context>
    var aliases: map<Id, Alias>
    var log: seq<Entry>

    function Contents(): Store
      reads this
    {
      Store(contexts, aliases, log)
    }

    ghost predicate Valid(now: Time)
      reads this
    {
      ValidConfig(cfg) && CollisionFree(digests) && Good(cfg, digests, Contents(), now) && Linked(Contents())
    }

    constructor (cfg: Config, digests: Digests)
      requires ValidConfig(cfg) && CollisionFree(digests)
      ensures forall now :: Valid(now)
      ensures Contents() == Store(map[], map[], []) && this.cfg == cfg && this.digests == digests
    {
      this.cfg, this.digests := cfg, digests;
      contexts, aliases, log := map[], map[], [];
    }

    /** The store stays valid when all that happened was the work of a request. */
    ghost method Settle(before: Store, now: Time)
      requires ValidConfig(cfg) && CollisionFree(digests) && OneToOne(digests, before)
      requires Inv(cfg, Contents(), now) && Works(before, Contents())
      ensures Valid(now)
    {
      OthersKeepOneToOne(digests, before, Contents());
      InvLinks(cfg, Contents(), now);
    }

    /* ---- Finding rows ---- */

    method FindAlias(owner: Id, code: Id, ghost clock: Time) returns (found: Option<Id>)
      requires Inv(cfg, Contents(), clock)
      ensures found == AliasFor(Contents(), owner, code)
    {
      var pending := aliases.Keys;
      while pending != {}
        invariant pending <= aliases.Keys
        invariant forall a :: a in aliases && a !in pending ==> !Carries(Contents(), a, owner, code)
        decreases pending
      {
        var a :| a in pending;
        if aliases[a].owner == owner && aliases[a].code == code {
          TheAlias(cfg, Contents(), a, owner, code, clock);
          return Some(a);
        }
        pending := pending - {a};
      }
      found := None;
    }

    method FindCurrent(c: Id, ghost clock: Time) returns (found: Option<Id>)
      requires Inv(cfg, Contents(), clock)
      ensures found == CurrentOf(Contents(), c)
    {
      var pending := aliases.Keys;
      while pending != {}
        invariant pending <= aliases.Keys
        invariant forall a :: a in aliases && a !in pending ==> !IsCurrent(Contents(), a, c)
        decreases pending
      {
        var a :| a in pending;
        if aliases[a].context == c && aliases[a].status.Active? {
          TheCurrent(cfg, Contents(), a, c, clock);
          return Some(a);
        }
        pending := pending - {a};
      }
      found := None;
    }

    /** The alias with the highest generation, if the context has one. */
    method FindLatest(c: Id) returns (found: Option<Id>)
      ensures found.Some? ==> IsLatest(Contents(), found.value, c)
      ensures found.None? ==> forall a :: !IsLatest(Contents(), a, c)
    {
      found := None;
      var pending := aliases.Keys;
      while pending != {}
        invariant pending <= aliases.Keys
        invariant found.None? ==> forall a :: a in aliases && a !in pending ==> aliases[a].context != c
        invariant found.Some? ==> found.value in aliases && aliases[found.value].context == c
        invariant found.Some? ==> forall a :: a in aliases && a !in pending && aliases[a].context == c
                                              ==> aliases[a].generation <= aliases[found.value].generation
      {
        var a :| a in pending;
        pending := pending - {a};
        if aliases[a].context == c && (found.None? || aliases[a].generation > aliases[found.value].generation) {
          found := Some(a);
        }
      }
    }

    method IsCodeHeld(code: Id, except: Option<Id>) returns (held: bool)
      ensures held <==> exists a: Id :: Some(a) != except && HoldsCode(Contents(), a, code)
    {
      var pending := aliases.Keys;
      while pending != {}
        invariant pending <= aliases.Keys
        invariant forall a :: a in aliases && a !in pending && Some(a) != except ==> !HoldsCode(Contents(), a, code)
      {
        var a :| a in pending;
        pending := pending - {a};
        if Some(a) != except && aliases[a].code == code && aliases[a].status.IsLive() {
          assert HoldsCode(Contents(), a, code);
          return true;
        }
      }
      held := false;
    }

    /* ---- Bringing rows up to date ---- */

    method ExpireAlias(a: Id, now: Time)
      requires Linked(Contents()) && a in aliases
      modifies this`contexts, this`aliases, this`log
      ensures Contents() == ExpireIfDue(cfg, old(Contents()), a, now)
    {
      var al := aliases[a];
      if al.status.Active? && al.expiresAt <= now {
        aliases := aliases[a := al.(status := Quarantined, quarantineUntil := Some(al.expiresAt + cfg.quarantine))];
        contexts := contexts[al.context := contexts[al.context].(state := Dormant)];
        log := log + [Entry(al.context, Some(al.generation), Expired)];
        log := log + [Entry(al.context, Some(al.generation), EnteredQuarantine)];
      }
    }

    method ReleaseAlias(a: Id, now: Time)
      requires a in aliases
      modifies this`aliases, this`log
      ensures Contents() == ReleaseIfDue(old(Contents()), a, now)
    {
      var al := aliases[a];
      if al.status.Quarantined? && al.quarantineUntil.Some? && al.quarantineUntil.value <= now {
        aliases := aliases[a := al.(status := Released)];
        log := log + [Entry(al.context, Some(al.generation), LeftQuarantine)];
      }
    }

    /** The two halves of bringing an alias up to date. */
    method ReconcileAlias(a: Id, now: Time)
      requires Valid(now) && a in aliases
      modifies this`contexts, this`aliases, this`log
      ensures Valid(now) && Contents() == Reconcile(cfg, old(Contents()), a, now)
    {
      hide Inv, OneToOne, Works, ExpireIfDue, ReleaseIfDue;
      ghost var before := Contents();
      ExpireKeepsRows(cfg, before, a, now);
      ReconcileWorks(cfg, before, a, now);
      ExpireAlias(a, now);
      ReleaseAlias(a, now);
      Settle(before, now);
    }

    method RenewAlias(a: Id, now: Time, force: bool)
      requires Valid(now) && a in aliases && aliases[a].status.Active?
      modifies this`contexts, this`aliases, this`log
      ensures Valid(now) && Contents() == Renew(cfg, old(Contents()), a, now, force)
    {
      hide Inv, OneToOne, Works;
      ghost var before := Contents();
      RenewWorks(cfg, before, a, now, force);
      var al := aliases[a];
      contexts := contexts[al.context := contexts[al.context].(state := InUse)];
      var target := now + cfg.ttl;
      if (force || al.expiresAt - now <= cfg.threshold) && target > al.expiresAt {
        aliases := aliases[a := al.(expiresAt := target)];
        log := log + [Entry(al.context, Some(al.generation), Renewed(false))];
      }
      Settle(before, now);
    }

    /** The source walks through all live rows with the code; there is never more than one. */
    method ReconcileCodeReservations(code: Id, now: Time)
      requires Valid(now)
      modifies this`contexts, this`aliases, this`log
      ensures Valid(now) && Contents() == ReconcileCode(cfg, old(Contents()), code, now)
    {
      hide OneToOne, AliasOk, Apart, Reconcile, Works;
      ghost var before := Contents();
      ghost var holder := HolderOf(before, code);
      var pending := set a | a in aliases && aliases[a].code == code && aliases[a].status.IsLive();
      assert forall a :: a in pending <==> HoldsCode(before, a, code);
      if holder.Some? {
        TheHolder(cfg, before, holder.value, code, now);
      }
      assert pending == if holder.Some? then {holder.value} else {};
      while pending != {}
        invariant Valid(now)
        invariant pending != {} ==> Contents() == before && holder.Some? && pending == {holder.value}
        invariant pending == {} ==> Contents() == ReconcileCode(cfg, before, code, now)
        decreases pending
      {
        var a :| a in pending;
        assert a == holder.value;
        ReconcileAlias(a, now);
        pending := pending - {a};
      }
    }
  
    /* ---- Requests ---- */

    ghost predicate Allocatable(c: Id, newId: Id)
      reads this
    {
      newId !in aliases && c in contexts && !contexts[c].state.Closed? && CurrentOf(Contents(), c).None?
    }

    /** Draws one code after the other until one is free for the owner. */
    method AllocateAlias(c: Id, codes: seq<Id>, newId: Id, now: Time) returns (ok: bool)
      requires Valid(now) && Allocatable(c, newId)
      modifies this`contexts, this`aliases, this`log
      ensures Valid(now) && (Contents(), ok) == Allocate(cfg, old(Contents()), c, codes, newId, now)
      ensures ok ==> Fresh(cfg, Contents(), c, newId, now)
    {
      hide Inv, OneToOne, Works, ReconcileCode, Fresh;
      ghost var before := Contents();
      var owner := contexts[c].owner;
      AllocateWorks(cfg, before, c, codes, newId, now);
      WorksReflexive(before);
      var i := 0;
      while i < |codes|
        invariant i <= |codes| && Valid(now) && Allocatable(c, newId) && contexts[c].owner == owner
        invariant Works(before, Contents())
        invariant Allocate(cfg, before, c, codes, newId, now) == Allocate(cfg, Contents(), c, codes[i..], newId, now)
      {
        ghost var s := Contents();
        assert codes[i..][0] == codes[i] && codes[i..][1..] == codes[i + 1..];
        ReconcileCodeWorks(cfg, s, codes[i], now);
        SettledStaysOpen(s, ReconcileCode(cfg, s, codes[i], now), c);
        ReconcileCodeReservations(codes[i], now);
        WorksTransitive(before, s, Contents());
        var ownHistory := FindAlias(owner, codes[i], now);
        var reserved := IsCodeHeld(codes[i], None);
        assert reserved <==> HolderOf(Contents(), codes[i]).Some?;
        if ownHistory.None? && !reserved {
          var generation := contexts[c].generation + 1;
          aliases := aliases[newId := Alias(c, owner, codes[i], generation, Active, now + cfg.ttl, None, None)];
          contexts := contexts[c := contexts[c].(generation := generation, state := InUse)];
          log := log + [Entry(c, Some(generation), Issued)];
          Settle(before, now);
          return true;
        }
        i := i + 1;
      }
      ok := false;
    }

    method ResolveAlias(owner: Id, code: Id, now: Time) returns (r: Result<Lease, Error>)
      requires Valid(now)
      modifies this`contexts, this`aliases, this`log
      ensures Valid(now) && Outcome(Contents(), r) == Resolve(cfg, old(Contents()), owner, code, now)
    {
      hide Inv, OneToOne, Works;
      var found := FindAlias(owner, code, now);
      if found.None? {
        return Failure(NotFound);
      }
      var a := found.value;
      var c := aliases[a].context;
      ReconcileSettles(cfg, Contents(), a, now);
      ReconcileAlias(a, now);
      if contexts[c].state.Closed? {
        return Failure(ContextClosed);
      }
      if !aliases[a].status.Active? {
        return Failure(AliasExpired);
      }
      RenewAlias(a, now, false);
      r := Success(Lease(aliases[a].context, aliases[a].code, aliases[a].generation, aliases[a].expiresAt, false));
    }

    method RotateAlias(a: Id, codes: seq<Id>, newId: Id, now: Time) returns (r: Result<Lease, Error>)
      requires Valid(now) && a in aliases && Allocatable(aliases[a].context, newId)
      modifies this`contexts, this`aliases, this`log
      ensures Valid(now) && Outcome(Contents(), r) == Rotate(cfg, old(Contents()), a, codes, newId, now)
    {
      hide Inv, OneToOne, Works, Allocate;
      ghost var before := Contents();
      var c := aliases[a].context;
      RotateServes(cfg, before, a, codes, newId, now);
      AllocatedKeepsRows(cfg, before, c, codes, newId, now);
      var ok := AllocateAlias(c, codes, newId, now);
      if !ok {
        return Failure(AllocationExhausted);
      }
      if aliases[a].replacedBy.None? {
        aliases := aliases[a := aliases[a].(replacedBy := Some(newId))];
      }
      log := log + [Entry(aliases[newId].context, Some(aliases[newId].generation), Rotated(a, newId))];
      Settle(before, now);
      r := Success(Lease(aliases[newId].context, aliases[newId].code, aliases[newId].generation,
                         aliases[newId].expiresAt, true));
    }

    /** The end of a refresh: reactivation of the old alias if nothing speaks against it, else a new code. */
    method ReviveAlias(a: Id, codes: seq<Id>, newId: Id, now: Time) returns (r: Result<Lease, Error>)
      requires Valid(now) && a in aliases && Allocatable(aliases[a].context, newId)
      modifies this`contexts, this`aliases, this`log
      ensures Valid(now) && Outcome(Contents(), r) == Revive(cfg, old(Contents()), a, codes, newId, now)
    {
      hide Inv, OneToOne, Works, ReconcileCode, Allocate;
      ghost var before := Contents();
      var c, code := aliases[a].context, aliases[a].code;
      ReviveServes(cfg, before, a, codes, newId, now);
      ReconcileCodeWorks(cfg, before, code, now);
      SettledStaysOpen(before, ReconcileCode(cfg, before, code, now), c);
      RowStaysSame(before, ReconcileCode(cfg, before, code, now), a);
      ReconcileCodeReservations(code, now);
      var al := aliases[a];
      var taken := IsCodeHeld(code, Some(a));
      assert taken <==> CodeTaken(Contents(), a);
      if !taken && (al.status.Quarantined? || al.status.Released?) && al.generation == contexts[c].generation
        && al.replacedBy.None? {
        aliases := aliases[a := al.(status := Active, expiresAt := now + cfg.ttl, quarantineUntil := None)];
        contexts := contexts[c := contexts[c].(state := InUse)];
        log := log + [Entry(c, Some(al.generation), Renewed(true))];
        Settle(before, now);
        return Success(Lease(c, code, al.generation, now + cfg.ttl, false));
      }
      r := RotateAlias(a, codes, newId, now);
    }

    method RefreshAlias(owner: Id, code: Id, codes: seq<Id>, newId: Id, now: Time) returns (r: Result<Lease, Error>)
      requires Valid(now) && newId !in aliases
      modifies this`contexts, this`aliases, this`log
      ensures Valid(now) && Outcome(Contents(), r) == Refresh(cfg, old(Contents()), owner, code, codes, newId, now)
    {
      hide Inv, OneToOne, Works, Reconcile, Revive;
      var found := FindAlias(owner, code, now);
      if found.None? {
        return Failure(NotFound);
      }
      var a := found.value;
      var c := aliases[a].context;
      if contexts[c].state.Closed? {
        return Failure(ContextClosed);
      }
      ghost var before := Contents();
      PrepareReconcile(cfg, before, a, a, now);
      ReconcileAlias(a, now);
      var current := FindCurrent(c, now);
      if current.Some? {
        ghost var checked := Contents();
        PrepareReconcile(cfg, checked, current.value, a, now);
        ReconcileAlias(current.value, now);
        var x := current.value;
        if aliases[x].status.Active? {
          RenewAlias(x, now, true);
          return Success(Lease(aliases[x].context, aliases[x].code, aliases[x].generation, aliases[x].expiresAt,
                               x != a));
        }
        NoneCurrentAfter(cfg, checked, Contents(), x, c, now);
      }
      r := ReviveAlias(a, codes, newId, now);
    }

    method EnsureContextAlias(c: Id, codes: seq<Id>, newId: Id, now: Time) returns (r: Result<Lease, Error>)
      requires Valid(now) && c in contexts && newId !in aliases
      modifies this`contexts, this`aliases, this`log
      ensures Valid(now) && Outcome(Contents(), r) == EnsureAlias(cfg, old(Contents()), c, codes, newId, now)
    {
      hide Inv, OneToOne, Works, Reconcile, Refresh, EnsureRest;
      if contexts[c].state.Closed? {
        return Failure(ContextClosed);
      }
      ghost var before := Contents();
      var current := FindCurrent(c, now);
      if current.Some? {
        var x := current.value;
        PrepareReconcile(cfg, before, x, x, now);
        ReconcileAlias(x, now);
        if aliases[x].status.Active? {
          RenewAlias(x, now, false);
          return Success(Lease(aliases[x].context, aliases[x].code, aliases[x].generation, aliases[x].expiresAt,
                               false));
        }
        NoneCurrentAfter(cfg, before, Contents(), x, c, now);
        assert contexts[c].owner == before.contexts[c].owner by { ContextStaysSame(before, Contents(), c); }
      }
      r := EnsureByLatest(c, codes, newId, now);
    }

    method EnsureByLatest(c: Id, codes: seq<Id>, newId: Id, now: Time) returns (r: Result<Lease, Error>)
      requires Valid(now) && Allocatable(c, newId)
      modifies this`contexts, this`aliases, this`log
      ensures Valid(now)
              && Outcome(Contents(), r) ==
                 EnsureRest(cfg, old(Contents()), c, old(contexts[c].owner), codes, newId, now)
    {
      hide Inv, OneToOne, Works, Refresh, Allocate;
      var latest := FindLatest(c);
      if latest.Some? {
        EnsureRestIsRefresh(cfg, Contents(), c, latest.value, contexts[c].owner, codes, newId, now);
        r := RefreshAlias(contexts[c].owner, aliases[latest.value].code, codes, newId, now);
      } else {
        r := FirstLease(c, codes, newId, now);
      }
    }

    method FirstLease(c: Id, codes: seq<Id>, newId: Id, now: Time) returns (r: Result<Lease, Error>)
      requires Valid(now) && Allocatable(c, newId)
      modifies this`contexts, this`aliases, this`log
      ensures Valid(now) && Outcome(Contents(), r) == FirstAlias(cfg, old(Contents()), c, codes, newId, now)
    {
      hide Inv, OneToOne, Works, Allocate;
      var ok := AllocateAlias(c, codes, newId, now);
      if !ok {
        return Failure(AllocationExhausted);
      }
      r := Success(Lease(aliases[newId].context, aliases[newId].code, aliases[newId].generation,
                         aliases[newId].expiresAt, false));
    }

    method FindByNonce(owner: Id, nonce: Option<Id>) returns (found: Option<Id>)
      ensures found.Some? ==> nonce.Some? && found.value in contexts
                              && contexts[found.value].owner == owner && contexts[found.value].nonce == nonce
      ensures found.None? ==>
                || nonce.None?
                || forall c :: c in contexts ==> !(contexts[c].owner == owner && contexts[c].nonce == nonce)
    {
      if nonce.Some? {
        var pending := contexts.Keys;
        while pending != {}
          invariant pending <= contexts.Keys
          invariant forall c ::
                    c in contexts && c !in pending ==> !(contexts[c].owner == owner && contexts[c].nonce == nonce)
        {
          var c :| c in pending;
          if contexts[c].owner == owner && contexts[c].nonce == nonce {
            return Some(c);
          }
          pending := pending - {c};
        }
      }
      found := None;
    }

    /** The ids of new rows are new; a request repeated with its nonce gets the context it got before. */
    method CreateContextFor(owner: Id, nonce: Option<Id>, codes: seq<Id>, newContext: Id, newAlias: Id, now: Time)
      returns (r: Result<Lease, Error>)
      requires Valid(now) && newContext !in contexts && newAlias !in aliases
      modifies this`contexts, this`aliases, this`log
      ensures Valid(now)
      ensures Outcome(Contents(), r) ==
              CreateContext(cfg, old(Contents()), owner, nonce, codes, newContext, newAlias, now)
    {
      hide Inv, Works, EnsureAlias, FirstAlias;
      ghost var before := Contents();
      var existing := FindByNonce(owner, nonce);
      if existing.Some? {
        CreateIsEnsure(cfg, digests, before, existing.value, owner, nonce, codes, newContext, newAlias, now);
        r := EnsureContextAlias(existing.value, codes, newAlias, now);
      } else {
        AddContextWorks(cfg, before, owner, nonce, newContext, now);
        contexts := contexts[newContext := Context(owner, CHATGPT, InUse, nonce, 0, None)];
        log := log + [Entry(newContext, None, Created)];
        Settle(before, now);
        r := FirstLease(newContext, codes, newAlias, now);
      }
    }

    /* ---- Conversations ---- */

    /** Compares one stored digest after the other with the digest under its own key version. */
    method BindConversation(owner: Id, c: Id, ref: Id, version: nat, now: Time) returns (r: Result<BindAnswer, Error>)
      requires Valid(now)
      modifies this`contexts, this`log
      ensures Valid(now) && (Contents(), r) == Bind(digests, old(Contents()), owner, c, ref, version)
    {
      hide Inv;
      ghost var before := Contents();
      if c !in contexts || contexts[c].owner != owner {
        return Failure(NotFound);
      }
      if contexts[c].state.Closed? {
        return Failure(ContextClosed);
      }
      var host := contexts[c].host;
      var pending := contexts.Keys;
      while pending != {}
        invariant pending <= contexts.Keys
        invariant forall d :: d in contexts && d !in pending ==> !Matches(digests, before, d, owner, host, ref)
      {
        var d :| d in pending;
        pending := pending - {d};
        if contexts[d].owner == owner && contexts[d].host == host && contexts[d].binding.Some?
           && digests(ref, contexts[d].binding.value.version) == contexts[d].binding.value.digest {
          assert Matches(digests, before, d, owner, host, ref);
          TheMatch(digests, before, d, owner, ref);
          return if d == c then Success(BindAnswer(c, contexts[d].binding.value.version, false))
                 else Failure(BindingConflict);
        }
      }
      if contexts[c].binding.Some? {
        return Failure(BindingConflict);
      }
      var digest := digests(ref, version);
      if DigestTaken(Contents(), c, digest) {
        return Failure(BindingConflict);
      }
      BindKeepsOneToOne(digests, before, owner, c, ref, version);
      BindWorks(cfg, digests, before, owner, c, ref, version, now);
      var generation := contexts[c].generation;
      contexts := contexts[c := contexts[c].(binding := Some(Binding(digest, version)))];
      log := log + [Entry(c, if generation == 0 then None else Some(generation), Bound(version))];
      r := Success(BindAnswer(c, version, true));
    }

    /** Collects every context that matches. */
    method FindConversation(owner: Id, ref: Id, ghost now: Time) returns (r: Result<Id, Error>)
      requires Valid(now)
      ensures r == ChatBindings.ResolveConversation(digests, Contents(), owner, ref)
    {
      var matches: set<Id> := {};
      var pending := contexts.Keys;
      while pending != {}
        invariant pending <= contexts.Keys && matches <= contexts.Keys - pending
        invariant forall c ::
                  c in matches <==>
                    c in contexts && c !in pending && Matches(digests, Contents(), c, owner, CHATGPT, ref)
      {
        var c :| c in pending;
        pending := pending - {c};
        if contexts[c].owner == owner && contexts[c].host == CHATGPT && contexts[c].binding.Some?
           && digests(ref, contexts[c].binding.value.version) == contexts[c].binding.value.digest {
          matches := matches + {c};
        }
      }
      if matches == {} {
        return Failure(NotFound);
      }
      var c :| c in matches;
      TheMatch(digests, Contents(), c, owner, ref);
      if matches != {c} {
        return Failure(BindingAmbiguous);
      }
      r := if contexts[c].state.Closed? then Failure(ContextClosed) else Success(c);
    }

    /** A lease for the context the conversation is bound to. */
    method ResolveConversationLease(owner: Id, ref: Id, codes: seq<Id>, newId: Id, now: Time)
      returns (r: Result<Lease, Error>)
      requires Valid(now) && newId !in aliases
      modifies this`contexts, this`aliases, this`log
      ensures Valid(now)
      ensures var found := ResolveConversation(digests, old(Contents()), owner, ref);
              if found.Failure? then Contents() == old(Contents()) && r == Failure(found.error)
              else found.value in old(contexts)
                   && Outcome(Contents(), r) == EnsureAlias(cfg, old(Contents()), found.value, codes, newId, now)
    {
      hide Inv, OneToOne, EnsureAlias;
      var found := FindConversation(owner, ref, now);
      if found.Failure? {
        return Failure(found.error);
      }
      r := EnsureContextAlias(found.value, codes, newId, now);
    }
  }

  lemma RowStaysSame(s: Store, t: Store, a: Id)
    requires Works(s, t) && a in s.aliases
    ensures a in t.aliases && t.aliases[a].context == s.aliases[a].context && t.aliases[a].code == s.aliases[a].code
  {
    assert AliasAdvances(s.aliases[a], t.aliases[a]);
  }

  /** What stays in place while one row is brought up to date. */
  lemma PrepareReconcile(cfg: Config, s: Store, b: Id, a: Id, now: Time)
    requires Inv(cfg, s, now) && Linked(s) && b in s.aliases && a in s.aliases
    ensures var t := Reconcile(cfg, s, b, now);
            && Works(s, t) && Settles(s, t) && a in t.aliases && b in t.aliases
            && t.aliases[a].context == s.aliases[a].context && t.aliases[a].code == s.aliases[a].code
            && (!s.contexts[s.aliases[a].context].state.Closed? ==> !t.contexts[s.aliases[a].context].state.Closed?)
  {
    ReconcileWorks(cfg, s, b, now);
    ReconcileSettles(cfg, s, b, now);
    RowStaysSame(s, Reconcile(cfg, s, b, now), a);
  }

  lemma NoneCurrentAfter(cfg: Config, s: Store, t: Store, a: Id, c: Id, now: Time)
    requires Inv(cfg, s, now) && IsCurrent(s, a, c) && Settles(s, t) && !IsCurrent(t, a, c)
    ensures CurrentOf(t, c).None?
  {
    forall b ensures !IsCurrent(t, b, c) {
      if IsCurrent(s, b, c) {
        OneCurrent(cfg, s, a, b, c, now);
      }
    }
  }

  lemma ContextStaysSame(s: Store, t: Store, c: Id)
    requires Works(s, t) && c in s.contexts && c in t.contexts
    ensures t.contexts[c].owner == s.contexts[c].owner
  {
    assert ContextAdvances(s.contexts[c], t.contexts[c]);
  }

  lemma EnsureRestIsRefresh(cfg: Config, s: Store, c: Id, a: Id, owner: Id, codes: seq<Id>, newId: Id, now: Time)
    requires Inv(cfg, s, now) && Linked(s) && c in s.contexts && IsLatest(s, a, c)
    ensures EnsureRest(cfg, s, c, owner, codes, newId, now) ==
            Refresh(cfg, s, owner, s.aliases[a].code, codes, newId, now)
  {
    hide Inv, Refresh, FirstAlias;
    forall b | IsLatest(s, b, c) ensures b == a {
      TheLatest(cfg, s, a, b, c, now);
    }
  }

  lemma CreateIsEnsure(cfg: Config, h: Digests, s: Store, c: Id, owner: Id, nonce: Option<Id>, codes: seq<Id>,
                       newContext: Id, newAlias: Id, now: Time)
    requires OneToOne(h, s) && Linked(s) && c in s.contexts
    requires nonce.Some? && s.contexts[c].owner == owner && s.contexts[c].nonce == nonce
    ensures CreateContext(cfg, s, owner, nonce, codes, newContext, newAlias, now) ==
            EnsureAlias(cfg, s, c, codes, newAlias, now)
  {
    hide EnsureAlias, FirstAlias;
    forall d | d in s.contexts && s.contexts[d].owner == owner && s.contexts[d].nonce == nonce ensures d == c {
      assert c != d ==> !SameNonce(s.contexts[c], s.contexts[d]);
    }
  }

  lemma TheMatch(h: Digests, s: Store, c: Id, owner: Id, ref: Id)
    requires OneToOne(h, s) && Matches(h, s, c, owner, CHATGPT, ref)
    ensures forall d :: Matches(h, s, d, owner, CHATGPT, ref) ==> d == c
  {
  }
}
