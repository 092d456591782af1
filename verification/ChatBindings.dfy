/**
 * Binding a chat context to a conversation. Only a keyed digest of the conversation
 * reference is stored, together with the version of the key it was made with, so
 * lookups compute one digest per stored version.
 */
module ChatBindings {
  import opened Common
  import opened ChatAliases
  import opened ChatAliasLaws

  /** The digest of a reference under the key of a version. */
  type Digests = (Id, nat) -> Id

  /** Under one key different references have different digests; nothing is assumed across keys. */
  ghost predicate CollisionFree(h: Digests) {
    forall v, x, y :: h(x, v) == h(y, v) ==> x == y
  }

  predicate IsBoundTo(h: Digests, b: Option<Binding>, ref: Id) {
    b.Some? && h(ref, b.value.version) == b.value.digest
  }

  predicate Matches(h: Digests, s: Store, c: Id, owner: Id, host: Id, ref: Id) {
    && c in s.contexts && s.contexts[c].owner == owner && s.contexts[c].host == host
    && IsBoundTo(h, s.contexts[c].binding, ref)
  }

  /** What the unique index on owner, host and digest forbids. */
  predicate DigestTaken(s: Store, c: Id, digest: Id)
    requires c in s.contexts
  {
    exists d ::
      d in s.contexts && d != c && s.contexts[d].owner == s.contexts[c].owner
        && s.contexts[d].host == s.contexts[c].host
        && s.contexts[d].binding.Some? && s.contexts[d].binding.value.digest == digest
  }

  datatype BindAnswer = BindAnswer(context: Id, version: nat, newlyBound: bool)

  function BindNew(s: Store, c: Id, digest: Id, version: nat): Store
    requires c in s.contexts
  {
    var ctx := s.contexts[c];
    s.(contexts := s.contexts[c := ctx.(binding := Some(Binding(digest, version)))],
       log := s.log + [Entry(c, if ctx.generation == 0 then None else Some(ctx.generation), Bound(version))])
  }

  /** Binding to `ref` while `version` is the configured key version. */
  ghost function Bind(h: Digests, s: Store, owner: Id, c: Id, ref: Id, version: nat): (Store, Result<BindAnswer, Error>)
  {
    if !(c in s.contexts && s.contexts[c].owner == owner) then (s, Failure(NotFound))
    else
      var ctx := s.contexts[c];
      if ctx.state.Closed? then (s, Failure(ContextClosed))
      else if exists d :: Matches(h, s, d, owner, ctx.host, ref) then
        var d :| Matches(h, s, d, owner, ctx.host, ref);
        (s, if d == c then Success(BindAnswer(c, s.contexts[d].binding.value.version, false))
         else Failure(BindingConflict))
      else if ctx.binding.Some? || DigestTaken(s, c, h(ref, version)) then (s, Failure(BindingConflict))
      else (BindNew(s, c, h(ref, version), version), Success(BindAnswer(c, version, true)))
  }

  ghost function ResolveConversation(h: Digests, s: Store, owner: Id, ref: Id): Result<Id, Error> {
    if !exists c :: Matches(h, s, c, owner, CHATGPT, ref) then Failure(NotFound)
    else
      var c :| Matches(h, s, c, owner, CHATGPT, ref);
      if exists d :: d != c && Matches(h, s, d, owner, CHATGPT, ref) then Failure(BindingAmbiguous)
      else if s.contexts[c].state.Closed? then Failure(ContextClosed)
      else Success(c)
  }

  /** A conversation, like a nonce, has one context of an owner, whichever key versions the bindings were made with. */
  ghost predicate OneToOne(h: Digests, s: Store) {
    && (forall c :: c in s.contexts ==> s.contexts[c].host == CHATGPT)
    && (forall c, d :: c in s.contexts && d in s.contexts && c != d ==> !SameNonce(s.contexts[c], s.contexts[d]))
    && forall c, d, ref ::
       c in s.contexts && d in s.contexts && c != d && s.contexts[c].owner == s.contexts[d].owner ==>
         !(IsBoundTo(h, s.contexts[c].binding, ref) && IsBoundTo(h, s.contexts[d].binding, ref))
  }

  lemma BindKeepsOneToOne(h: Digests, s: Store, owner: Id, c: Id, ref: Id, version: nat)
    requires CollisionFree(h) && OneToOne(h, s)
    ensures OneToOne(h, Bind(h, s, owner, c, ref, version).0)
  {
    var t := Bind(h, s, owner, c, ref, version).0;
    if t != s {
      forall d, r | d in t.contexts && d != c && t.contexts[d].owner == t.contexts[c].owner
        ensures !(IsBoundTo(h, t.contexts[c].binding, r) && IsBoundTo(h, t.contexts[d].binding, r))
      {
        assert !Matches(h, s, d, owner, CHATGPT, ref);
        if IsBoundTo(h, t.contexts[c].binding, r) {
          assert r == ref;
        }
      }
    }
  }

  lemma BindWorks(cfg: Config, h: Digests, s: Store, owner: Id, c: Id, ref: Id, version: nat, clock: Time)
    requires Inv(cfg, s, clock)
    ensures var t := Bind(h, s, owner, c, ref, version).0;
            Inv(cfg, t, clock) && Advances(s, t)
  {
    hide LastStatus;
    var t := Bind(h, s, owner, c, ref, version).0;
    if t != s {
      var e := t.log[|s.log|];
      assert t.log == s.log + [e];
      forall a | a in s.aliases ensures AliasOk(cfg, t, a, clock) {
        assert AliasOk(cfg, s, a, clock);
        LastStatusAppended(s.log, e, s.aliases[a].context, s.aliases[a].generation);
      }
      forall d, g: nat | d in t.contexts && 1 <= g <= t.contexts[d].generation ensures HasGeneration(t, d, g) {
        assert HasGeneration(s, d, g);
      }
      forall d | ClosedForGood(s, d) ensures ClosedForGood(t, d) {
        forall a ensures !IsCurrent(t, a, d) {
          assert !IsCurrent(s, a, d);
        }
      }
    }
  }

  lemma OthersKeepOneToOne(h: Digests, s: Store, t: Store)
    requires OneToOne(h, s) && Works(s, t)
    ensures OneToOne(h, t)
  {
    forall c | c in t.contexts && c in s.contexts
      ensures t.contexts[c].host == CHATGPT && t.contexts[c].owner == s.contexts[c].owner
              && t.contexts[c].binding == s.contexts[c].binding
    {
      assert ContextAdvances(s.contexts[c], t.contexts[c]);
    }
  }

  /** After a bind the conversation leads to the context that was bound. */
  lemma BoundResolves(h: Digests, s: Store, owner: Id, c: Id, ref: Id)
    requires OneToOne(h, s) && Matches(h, s, c, owner, CHATGPT, ref)
    ensures ResolveConversation(h, s, owner, ref) ==
            if s.contexts[c].state.Closed? then Failure(ContextClosed) else Success(c)
  {
  }

  lemma BindMatches(h: Digests, s: Store, owner: Id, c: Id, ref: Id, version: nat)
    requires OneToOne(h, s) && Bind(h, s, owner, c, ref, version).1.Success?
    ensures Matches(h, Bind(h, s, owner, c, ref, version).0, c, owner, CHATGPT, ref)
  {
  }

  /** No state in which bindings are one to one lets the ambiguity error happen. */
  lemma NeverAmbiguous(h: Digests, s: Store, owner: Id, ref: Id)
    requires OneToOne(h, s)
    ensures ResolveConversation(h, s, owner, ref) != Failure(BindingAmbiguous)
  {
  }

  /**
   * Which binds go through: the context is the owner's and open, and either it is
   * already bound to this very conversation, or neither the context nor the
   * conversation is bound and no digest made with another key happens to be equal.
   */
  lemma BindSucceedsExactly(h: Digests, s: Store, owner: Id, c: Id, ref: Id, version: nat)
    requires OneToOne(h, s) && c in s.contexts && s.contexts[c].owner == owner
    ensures Bind(h, s, owner, c, ref, version).1.Success? <==>
            && !s.contexts[c].state.Closed?
            && (|| IsBoundTo(h, s.contexts[c].binding, ref)
                || (&& s.contexts[c].binding.None?
                    && forall d ::
                       d in s.contexts && d != c && s.contexts[d].owner == owner && s.contexts[d].binding.Some? ==>
                         && !IsBoundTo(h, s.contexts[d].binding, ref)
                         && s.contexts[d].binding.value.digest != h(ref, version)))
    ensures Bind(h, s, owner, c, ref, version).1.Failure? ==>
              Bind(h, s, owner, c, ref, version).1.error
              == if s.contexts[c].state.Closed? then ContextClosed else BindingConflict
  {
    if IsBoundTo(h, s.contexts[c].binding, ref) {
      assert Matches(h, s, c, owner, CHATGPT, ref);
    }
    forall d | d in s.contexts && s.contexts[d].owner == owner && IsBoundTo(h, s.contexts[d].binding, ref)
      ensures Matches(h, s, d, owner, s.contexts[c].host, ref)
    {
    }
  }

  /**
   * What a bind answers and stores. A context that is bound already keeps the key
   * version it was bound with and nothing new is stored; a context that is not gets the
   * digest made with the configured version, and one entry in the log, which names
   * no generation while the context has no alias.
   */
  lemma BindAnswersExactly(h: Digests, s: Store, owner: Id, c: Id, ref: Id, version: nat)
    requires OneToOne(h, s) && Bind(h, s, owner, c, ref, version).1.Success?
    ensures c in s.contexts && s.contexts[c].owner == owner
    ensures var (t, r) := Bind(h, s, owner, c, ref, version);
            var was := s.contexts[c];
            match was.binding
            case Some(known) => t == s && r.value == BindAnswer(c, known.version, false)
            case None =>
              && r.value == BindAnswer(c, version, true)
              && t.aliases == s.aliases && t.contexts.Keys == s.contexts.Keys
              && t.contexts[c] == was.(binding := Some(Binding(h(ref, version), version)))
              && (forall d :: d in s.contexts && d != c ==> t.contexts[d] == s.contexts[d])
              && exists g ::
                   && t.log == s.log + [Entry(c, g, Bound(version))]
                   && (g.None? <==> was.generation == 0) && (g.Some? ==> g.value == was.generation)
  {
    var (t, r) := Bind(h, s, owner, c, ref, version);
    if s.contexts[c].binding.None? {
      assert t == BindNew(s, c, h(ref, version), version);
      assert t.log == s.log + [Entry(c, t.log[|s.log|].generation, Bound(version))];
    }
  }
}
