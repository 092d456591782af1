/**
 * Who is asked to review an approval request. The list is computed separately from
 * the check made when a vote is cast; here the two are shown to agree.
 */
module Reviewers {
  import opened Common
  import opened Autonomy

  /** Some grant lets the subject approve, whether or not it is the first one looked at. */
  predicate HasGrant(w: World, request: Id, a: Approval, subject: Id) {
    exists g :: g in w.grants && Concerns(g, request, a, subject) && g.mayApprove
  }

  /** A known user whose first vote on the request is wanted. */
  predicate IsReviewer(w: World, users: seq<User>, votes: Votes, request: Id, a: Approval, subject: Id) {
    && (exists u :: u in users && u.subject == subject && CanVote(w, request, a, u))
    && (request, subject) !in votes
    && !(a.rule.disallowProposer && subject == a.createdBy)
  }

  lemma {:induction false} FirstGrantIsAGrant(grants: seq<Grant>, request: Id, a: Approval, subject: Id)
    ensures var f := FirstGrant(grants, request, a, subject);
            f.Some? ==> f.value in grants && Concerns(f.value, request, a, subject)
  {
    if grants != [] && !Concerns(grants[0], request, a, subject) {
      FirstGrantIsAGrant(grants[1..], request, a, subject);
    }
  }

  /** Whoever may vote is the owner, an administrator or somebody with a grant. */
  lemma VotersAreCandidates(w: World, request: Id, a: Approval, u: User)
    requires CanVote(w, request, a, u)
    ensures u.subject == a.owner || u.isAdmin || HasGrant(w, request, a, u.subject)
  {
    FirstGrantIsAGrant(w.grants, request, a, u.subject);
  }

  /**
   * The reviewers of a request that has not run out are exactly the users whose new
   * vote, either way, would be admitted.
   */
  lemma ReviewersAreVoters(db: Db, w: World, users: seq<User>, request: Id, subject: Id, now: Time)
    requires request in db.approvals && IsPending(db.approvals[request], now)
    ensures IsReviewer(w, users, db.votes, request, db.approvals[request], subject) <==>
            (request, subject) !in db.votes
            && exists u ::
               u in users && u.subject == subject
                 && forall approves :: VoteError(db, w, request, u, approves, now).None?
  {
    hide CanVote;
    if IsReviewer(w, users, db.votes, request, db.approvals[request], subject) {
      var u :| u in users && u.subject == subject && CanVote(w, request, db.approvals[request], u);
      forall approves ensures VoteError(db, w, request, u, approves, now).None? {
      }
    }
    if u :| (request, subject) !in db.votes && u in users && u.subject == subject
            && forall approves :: VoteError(db, w, request, u, approves, now).None? {
      assert VoteError(db, w, request, u, true, now).None?;
    }
  }

  predicate Ascending(s: seq<Id>) {
    forall i, j :: 0 <= i < j < |s| ==> s[i] < s[j]
  }

  predicate SortedBySubject(us: seq<User>) {
    forall i, j :: 0 <= i < j < |us| ==> us[i].subject <= us[j].subject
  }

  method InsertBySubject(us: seq<User>, u: User) returns (longer: seq<User>)
    requires SortedBySubject(us)
    ensures SortedBySubject(longer) && forall v :: v in longer <==> v in us || v == u
  {
    var k := 0;
    while k < |us| && us[k].subject < u.subject
      invariant k <= |us| && forall j :: 0 <= j < k ==> us[j].subject < u.subject
    {
      k := k + 1;
    }
    longer := us[..k] + [u] + us[k..];
    assert us == us[..k] + us[k..];
  }

  method SortBySubject(us: seq<User>) returns (sorted: seq<User>)
    ensures SortedBySubject(sorted) && forall u :: u in sorted <==> u in us
  {
    hide SortedBySubject;
    sorted := [];
    assert SortedBySubject(sorted) by { NothingIsSorted(); }
    for i := 0 to |us|
      invariant SortedBySubject(sorted) && forall u :: u in sorted <==> u in us[..i]
    {
      sorted := InsertBySubject(sorted, us[i]);
      assert us[..i + 1] == us[..i] + [us[i]];
    }
    assert us[..|us|] == us;
  }

  lemma NothingIsSorted()
    ensures SortedBySubject([])
  {
  }

  method Candidates(w: World, users: seq<User>, request: Id, a: Approval) returns (cs: seq<User>)
    ensures forall u ::
            u in cs <==> u in users && (u.subject == a.owner || u.isAdmin || HasGrant(w, request, a, u.subject))
  {
    hide Concerns;
    cs := [];
    var granted: set<Id> := {};
    for i := 0 to |w.grants|
      invariant forall s ::
                s in granted <==>
                  exists k :: 0 <= k < i && Concerns(w.grants[k], request, a, s) && w.grants[k].mayApprove
    {
      if Concerns(w.grants[i], request, a, w.grants[i].grantee) && w.grants[i].mayApprove {
        granted := granted + {w.grants[i].grantee};
      }
      GranteeOnly(w.grants[i], request, a);
    }
    assert forall s :: s in granted <==> HasGrant(w, request, a, s);
    for i := 0 to |users|
      invariant forall u ::
                u in cs <==>
                  u in users[..i] && (u.subject == a.owner || u.isAdmin || HasGrant(w, request, a, u.subject))
    {
      assert users[..i + 1] == users[..i] + [users[i]];
      if users[i].subject == a.owner {
        cs := cs + [users[i]];
      }
      if users[i].subject in granted {
        cs := cs + [users[i]];
      }
      if users[i].isAdmin {
        cs := cs + [users[i]];
      }
    }
    assert users[..|users|] == users;
  }

  lemma GranteeOnly(g: Grant, request: Id, a: Approval)
    ensures forall s :: Concerns(g, request, a, s) ==> s == g.grantee
  {
  }

  /** All reviewers in order, cut off at a maximum; `truncated` tells whether any were left out. */
  method EligibleReviewers(w: World, users: seq<User>, votes: Votes, request: Id, a: Approval, maximum: nat)
    returns (subjects: seq<Id>, truncated: bool)
    ensures !a.status.Open? ==> subjects == [] && !truncated
    ensures Ascending(subjects) && |subjects| <= maximum
    ensures forall s :: s in subjects ==> IsReviewer(w, users, votes, request, a, s)
    ensures a.status.Open? ==>
              forall s ::
                IsReviewer(w, users, votes, request, a, s) && s !in subjects ==>
                  truncated && forall t :: t in subjects ==> t < s
    ensures truncated ==>
            |subjects| == maximum && exists s :: s !in subjects && IsReviewer(w, users, votes, request, a, s)
  {
    hide CanVote, HasGrant;
    if !a.status.Open? {
      return [], false;
    }
    var cs := Candidates(w, users, request, a);
    var sorted := SortBySubject(cs);
    var all: seq<Id> := [];
    for i := 0 to |sorted|
      invariant Ascending(all) && (all != [] && i < |sorted| ==> all[|all| - 1] <= sorted[i].subject)
      invariant forall s :: s in all ==> IsReviewer(w, users, votes, request, a, s)
      invariant forall k :: 0 <= k < i && IsWanted(w, votes, request, a, sorted[k]) ==> sorted[k].subject in all
    {
      var u := sorted[i];
      assert u in users;
      if u.subject !in all && (request, u.subject) !in votes && !(a.rule.disallowProposer && u.subject == a.createdBy)
         && CanVote(w, request, a, u) {
        all := all + [u.subject];
      }
    }
    forall s | IsReviewer(w, users, votes, request, a, s) ensures s in all {
      var u :| u in users && u.subject == s && CanVote(w, request, a, u);
      VotersAreCandidates(w, request, a, u);
      assert u in sorted;
    }
    truncated := |all| > maximum;
    subjects := if truncated then all[..maximum] else all;
    if truncated {
      assert all[maximum] !in subjects;
    }
  }

  predicate IsWanted(w: World, votes: Votes, request: Id, a: Approval, u: User) {
    (request, u.subject) !in votes && !(a.rule.disallowProposer && u.subject == a.createdBy)
      && CanVote(w, request, a, u)
  }
}
