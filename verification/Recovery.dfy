/**
 * Recovery loops. A cycle reads the loops that are due once, and then works on its
 * copies: it sets a loop aside, ends it, or makes an attempt. Each attempt is two
 * commits: the command, found again by a key made of the loop and the attempt, and
 * then the loop itself. Workers run side by side, may stop anywhere, and write back
 * what their copies tell them without looking at the loops again.
 */
module Recovery {
  import opened Common
  import opened Autonomy

  /** A due loop as a worker read it. */
  datatype Held = Held(loop: Id, copy: Loop)

  /**
   * A worker in the middle of a cycle: the policy generation it goes by, the loops
   * still to do, and the command of the first of them once that is committed.
   */
  datatype Hand = Hand(generation: nat, rest: seq<Held>, sent: Option<Id>)

  type Issued = map<(Id, nat), Id>

  datatype State = State(loops: map<Id, Loop>, issued: Issued, workers: map<Id, Hand>)

  datatype Outcome = Succeeded | GivenUp | FailedAttempt

  datatype Step =
    | Create(loop: Id, newLoop: Loop)
    | Read(worker: Id, policy: Id, generation: nat, due: seq<Id>)
    | SetAside(worker: Id)
    | Send(worker: Id, newCommand: Id)
    | Conclude(worker: Id)
    | Crash(worker: Id)
    | Report(loop: Id, outcome: Outcome, command: Option<Id>, maxBackoff: nat)
    | Stop(loop: Id, state: ControlState)

  datatype Event = Event(step: Step, now: Time)

  /* ---- Waiting between attempts ---- */

  function PowerOf2(n: nat): (p: nat)
    ensures p >= 1
  {
    if n == 0 then 1 else 2 * PowerOf2(n - 1)
  }

  function Backoff(base: nat, maximum: nat, attempts: nat): nat {
    Min(maximum, base * PowerOf2(if attempts == 0 then 0 else attempts - 1))
  }

  lemma {:induction false} PowersGrow(m: nat, n: nat)
    requires m <= n
    ensures PowerOf2(m) <= PowerOf2(n)
  {
    if m < n {
      PowersGrow(m, n - 1);
    }
  }

  /** The wait never gets shorter from one attempt to the next and never exceeds the maximum. */
  lemma BackoffGrowsUpToMaximum(base: nat, maximum: nat, m: nat, n: nat)
    requires m <= n
    ensures Backoff(base, maximum, m) <= Backoff(base, maximum, n) <= maximum
    ensures 1 <= m && base >= 1 ==> Min(maximum, base) <= Backoff(base, maximum, m)
  {
    var j, k := if m == 0 then 0 else m - 1, if n == 0 then 0 else n - 1;
    PowersGrow(j, k);
    PowersGrow(0, j);
    ScalingKeepsOrder(base, PowerOf2(j), PowerOf2(k));
    ScalingKeepsOrder(base, 1, PowerOf2(j));
  }

  /** The first wait is the base, each further one is twice the one before, and none is longer than the maximum. */
  lemma BackoffDoublesUpToMaximum(base: nat, maximum: nat, n: nat)
    ensures Backoff(base, maximum, 0) == Backoff(base, maximum, 1) == if base <= maximum then base else maximum
    ensures n >= 1 ==>
              var twice := 2 * Backoff(base, maximum, n);
              Backoff(base, maximum, n + 1) == if twice <= maximum then twice else maximum
  {
    assert PowerOf2(0) == 1;
    if n >= 1 {
      assert base * PowerOf2(n) == 2 * (base * PowerOf2(n - 1));
    }
  }

  lemma ScalingKeepsOrder(base: nat, x: nat, y: nat)
    requires x <= y
    ensures base * x <= base * y
  {
  }

  /* ---- Steps ---- */

  function WithLoop(s: State, l: Id, loop: Loop): State {
    s.(loops := s.loops[l := loop])
  }

  function Without(workers: map<Id, Hand>, w: Id): map<Id, Hand> {
    map v | v in workers && v != w :: workers[v]
  }

  function CreateLoop(s: State, l: Id, loop: Loop): State {
    if l in s.loops || loop.maxAttempts == 0 then s
    else WithLoop(s, l, loop.(status := Planned, attempts := 0, lastCommand := None, generation := 1))
  }

  predicate IsDue(s: State, l: Id, policy: Id, now: Time) {
    l in s.loops && s.loops[l].policy == policy && s.loops[l].status.Planned? && s.loops[l].nextAt <= now
  }

  function Copies(loops: map<Id, Loop>, due: seq<Id>): (r: seq<Held>)
    requires forall l :: l in due ==> l in loops
    ensures |r| == |due| && forall i :: 0 <= i < |due| ==> r[i] == Held(due[i], loops[due[i]])
  {
    seq(|due|, i requires 0 <= i < |due| => Held(due[i], loops[due[i]]))
  }

  predicate IsIdle(s: State, w: Id) {
    w !in s.workers || s.workers[w].rest == []
  }

  /** The query at the start of a cycle. It may return any selection of due loops, each once. */
  function ReadDue(s: State, w: Id, policy: Id, generation: nat, due: seq<Id>, now: Time): State {
    if !IsIdle(s, w) || !Distinct(due) || exists l :: l in due && !IsDue(s, l, policy, now) then s
    else s.(workers := s.workers[w := Hand(generation, Copies(s.loops, due), None)])
  }

  /** The copy leads to an attempt. */
  predicate IsTried(copy: Loop, generation: nat) {
    copy.policyGeneration == generation && copy.attempts < copy.maxAttempts
  }

  /** The worker goes on to its next loop. */
  function Next(s: State, w: Id): map<Id, Hand>
    requires w in s.workers && s.workers[w].rest != []
  {
    s.workers[w := Hand(s.workers[w].generation, s.workers[w].rest[1..], None)]
  }

  predicate IsBusy(s: State, w: Id) {
    w in s.workers && s.workers[w].rest != [] && s.workers[w].rest[0].loop in s.loops
  }

  /** Pausing a loop of an older policy generation, or ending one without attempts left, by the copy alone. */
  function SetLoopAside(s: State, w: Id): State {
    if !IsBusy(s, w) || IsTried(s.workers[w].rest[0].copy, s.workers[w].generation) then s
    else
      var h := s.workers[w].rest[0];
      var loop := s.loops[h.loop];
      var after :=
        if h.copy.policyGeneration != s.workers[w].generation then
          loop.(status := LoopPaused, generation := h.copy.generation + 1)
        else loop.(status := Exhausted);
      WithLoop(s, h.loop, after).(workers := Next(s, w))
  }

  /** First commit of an attempt: the command with the attempt's key, new only if there is none. */
  function SendCommand(s: State, w: Id, newCommand: Id): State {
    if !IsBusy(s, w) || s.workers[w].sent.Some? || !IsTried(s.workers[w].rest[0].copy, s.workers[w].generation) then s
    else
      var key := (s.workers[w].rest[0].loop, s.workers[w].rest[0].copy.attempts + 1);
      var issued := if key in s.issued then s.issued else s.issued[key := newCommand];
      s.(issued := issued, workers := s.workers[w := s.workers[w].(sent := Some(issued[key]))])
  }

  /** Second commit: the fields that differ from the copy are written over whatever the loop has become. */
  function ConcludeAttempt(s: State, w: Id): State {
    if !IsBusy(s, w) || s.workers[w].sent.None? then s
    else
      var h, sent := s.workers[w].rest[0], s.workers[w].sent;
      var loop := s.loops[h.loop];
      WithLoop(s, h.loop, loop.(
                 attempts := h.copy.attempts + 1, status := Waiting,
                 lastCommand := if h.copy.lastCommand == sent then loop.lastCommand else sent))
        .(workers := Next(s, w))
  }

  function ReportOutcome(s: State, l: Id, outcome: Outcome, command: Option<Id>, maxBackoff: nat, now: Time): State {
    if l !in s.loops then s
    else
      var loop := s.loops[l];
      if !(loop.status.Waiting? || loop.status.LoopPaused?) then s
      else if command.Some? && loop.lastCommand != command then s
      else
        var after := match outcome
          case Succeeded => loop.(status := LoopSucceeded)
          case GivenUp => loop.(status := LoopCancelled)
          case FailedAttempt =>
            if loop.attempts >= loop.maxAttempts then loop.(status := Exhausted)
            else loop.(status := Planned, nextAt := now + Backoff(loop.baseBackoff, maxBackoff, loop.attempts));
        WithLoop(s, l, after.(generation := loop.generation + 1))
  }

  /** A loop starts planned, with no attempts made and at least one to make. */
  lemma LoopStarts(s: State, l: Id, loop: Loop)
    requires l !in s.loops
    ensures var t := CreateLoop(s, l, loop);
            if loop.maxAttempts >= 1 then
              && t == s.(loops := s.loops[l := t.loops[l]])
              && t.loops[l].status.Planned? && t.loops[l].generation == 1
              && t.loops[l].attempts == 0 && t.loops[l].lastCommand.None?
              && t.loops[l].maxAttempts == loop.maxAttempts && t.loops[l].policy == loop.policy
              && t.loops[l].policyGeneration == loop.policyGeneration && t.loops[l].nextAt == loop.nextAt
            else t == s
  {
  }

  /** A cycle takes up planned loops of its policy whose time has come, and copies them as they are. */
  lemma TakenUpWhenDue(s: State, w: Id, policy: Id, generation: nat, due: seq<Id>, now: Time, h: Held)
    requires w in ReadDue(s, w, policy, generation, due, now).workers
    requires h in ReadDue(s, w, policy, generation, due, now).workers[w].rest
    requires ReadDue(s, w, policy, generation, due, now) != s
    ensures h.loop in due && h.loop in s.loops && h.copy == s.loops[h.loop]
    ensures h.copy.status.Planned? && h.copy.policy == policy && h.copy.nextAt <= now
    ensures ReadDue(s, w, policy, generation, due, now).loops == s.loops
  {
    var i :| 0 <= i < |due| && ReadDue(s, w, policy, generation, due, now).workers[w].rest[i] == h;
    assert due[i] in due;
  }

  /**
   * What the worker makes of its next loop depends on the copy alone: a copy from
   * another generation of the policy has the loop paused, one without attempts left
   * has it ended, and any other gets a command sent under the next attempt's number,
   * after which the loop waits.
   */
  lemma WorkerActsByCopy(s: State, w: Id, newCommand: Id)
    requires IsBusy(s, w) && s.workers[w].sent.None?
    ensures var h, generation := s.workers[w].rest[0], s.workers[w].generation;
            var was, aside, sent := s.loops[h.loop], SetLoopAside(s, w), SendCommand(s, w, newCommand);
            if h.copy.policyGeneration != generation then
              && sent == s && h.loop in aside.loops && aside.issued == s.issued
              && aside.loops == s.loops[h.loop := was.(status := LoopPaused, generation := h.copy.generation + 1)]
              && w in aside.workers && aside.workers[w].rest == s.workers[w].rest[1..]
            else if h.copy.attempts >= h.copy.maxAttempts then
              && sent == s && aside.issued == s.issued
              && aside.loops == s.loops[h.loop := was.(status := Exhausted)]
              && w in aside.workers && aside.workers[w].rest == s.workers[w].rest[1..]
            else
              && aside == s && sent.loops == s.loops && w in sent.workers && sent.workers[w].sent.Some?
              && var key, command := (h.loop, h.copy.attempts + 1), sent.workers[w].sent.value;
                 && (key in s.issued ==> command == s.issued[key])
                 && (key !in s.issued ==> command == newCommand)
                 && sent.issued == s.issued[key := command]
                 && var done := ConcludeAttempt(sent, w);
                    && done.issued == sent.issued && h.loop in done.loops
                    && (forall k :: k in s.loops && k != h.loop ==> k in done.loops && done.loops[k] == s.loops[k])
                    && done.loops[h.loop] == was.(status := Waiting, attempts := h.copy.attempts + 1,
                                                  lastCommand := done.loops[h.loop].lastCommand)
                    && (h.copy.lastCommand == was.lastCommand ==> done.loops[h.loop].lastCommand == Some(command))
                    && w in done.workers && done.workers[w].rest == s.workers[w].rest[1..]
  {
  }

  /**
   * An outcome is taken for a loop that waits or is paused, and only for its last
   * command if one is named. A success or giving up ends the loop; a failure ends it
   * when its attempts are used up and otherwise plans it after the wait.
   */
  lemma OutcomeIsTaken(s: State, l: Id, outcome: Outcome, command: Option<Id>, maxBackoff: nat, now: Time)
    ensures var t := ReportOutcome(s, l, outcome, command, maxBackoff, now);
            if l in s.loops && s.loops[l].status in {Waiting, LoopPaused}
               && (command.Some? ==> s.loops[l].lastCommand == command)
            then
              && t == s.(loops := s.loops[l := t.loops[l]])
              && var was, loop := s.loops[l], t.loops[l];
                 && loop == was.(status := loop.status, nextAt := loop.nextAt, generation := was.generation + 1)
                 && (outcome.Succeeded? ==> loop.status.LoopSucceeded?)
                 && (outcome.GivenUp? ==> loop.status.LoopCancelled?)
                 && (outcome.FailedAttempt? && was.attempts >= was.maxAttempts ==> loop.status.Exhausted?)
                 && (outcome.FailedAttempt? && was.attempts < was.maxAttempts ==>
                       loop.status.Planned? && loop.nextAt == now + Backoff(was.baseBackoff, maxBackoff, was.attempts))
                 && (!loop.status.Planned? ==> loop.nextAt == was.nextAt)
            else t == s
  {
    hide Backoff;
  }

  function Apply(s: State, e: Event): State {
    match e.step
    case Create(l, loop) => CreateLoop(s, l, loop)
    case Read(w, policy, generation, due) => ReadDue(s, w, policy, generation, due, e.now)
    case SetAside(w) => SetLoopAside(s, w)
    case Send(w, c) => SendCommand(s, w, c)
    case Conclude(w) => ConcludeAttempt(s, w)
    case Crash(w) => s.(workers := Without(s.workers, w))
    case Report(l, outcome, command, maxBackoff) => ReportOutcome(s, l, outcome, command, maxBackoff, e.now)
    case Stop(l, state) =>
      if l in s.loops && !IsOver(s.loops[l].status) then WithLoop(s, l, StopLoop(s.loops[l], state)) else s
  }

  function Run(s: State, events: seq<Event>): State
    decreases events
  {
    if events == [] then s else Run(Apply(s, events[0]), events[1..])
  }

  /* ---- Attempts are numbered within the limit ---- */

  predicate InLimit(s: State, l: Id, n: nat) {
    l in s.loops && 1 <= n <= s.loops[l].maxAttempts
  }

  predicate HeldOk(s: State, h: Held) {
    && h.loop in s.loops && h.copy.maxAttempts == s.loops[h.loop].maxAttempts
    && h.copy.attempts <= h.copy.maxAttempts
  }

  /** Copies have the limits of their loops, and a command in hand is the one issued for its attempt. */
  ghost predicate HandOk(s: State, hand: Hand) {
    && (forall h :: h in hand.rest ==> HeldOk(s, h))
    && (hand.sent.Some? ==>
          && hand.rest != [] && IsTried(hand.rest[0].copy, hand.generation)
          && (hand.rest[0].loop, hand.rest[0].copy.attempts + 1) in s.issued
          && s.issued[(hand.rest[0].loop, hand.rest[0].copy.attempts + 1)] == hand.sent.value)
  }

  ghost predicate Inv(s: State) {
    && (forall l :: l in s.loops ==> s.loops[l].attempts <= s.loops[l].maxAttempts)
    && (forall k :: k in s.issued ==> InLimit(s, k.0, k.1))
    && forall w :: w in s.workers ==> HandOk(s, s.workers[w])
  }

  /** Limits never change, and a command once issued for an attempt stays the command of that attempt. */
  ghost predicate Continues(s: State, t: State) {
    && (forall l :: l in s.loops ==> l in t.loops && t.loops[l].maxAttempts == s.loops[l].maxAttempts)
    && forall k :: k in s.issued ==> k in t.issued && t.issued[k] == s.issued[k]
  }

  lemma StepContinues(s: State, e: Event)
    ensures Continues(s, Apply(s, e))
  {
    hide Copies, IsDue, Backoff;
  }

  lemma HandStaysOk(s: State, t: State, hand: Hand)
    requires HandOk(s, hand) && Continues(s, t)
    ensures HandOk(t, hand)
  {
  }

  /** It is enough that changed loops and workers are in order. */
  lemma ContinuingKeepsInv(s: State, t: State)
    requires Inv(s) && Continues(s, t)
    requires forall l :: l in t.loops && (l !in s.loops || t.loops[l] != s.loops[l]) ==>
               t.loops[l].attempts <= t.loops[l].maxAttempts
    requires forall k :: k in t.issued && k !in s.issued ==> InLimit(s, k.0, k.1)
    requires forall w :: w in t.workers && (w !in s.workers || t.workers[w] != s.workers[w]) ==>
               HandOk(t, t.workers[w])
    ensures Inv(t)
  {
    hide HandOk;
    forall w | w in t.workers ensures HandOk(t, t.workers[w]) {
      if w in s.workers && t.workers[w] == s.workers[w] {
        HandStaysOk(s, t, s.workers[w]);
      }
    }
    forall k | k in t.issued ensures InLimit(t, k.0, k.1) {
      assert InLimit(s, k.0, k.1);
    }
  }

  lemma ReadKeepsInv(s: State, w: Id, policy: Id, generation: nat, due: seq<Id>, now: Time)
    requires Inv(s)
    ensures Inv(ReadDue(s, w, policy, generation, due, now))
  {
    hide Distinct;
    var t := ReadDue(s, w, policy, generation, due, now);
    if t != s {
      forall h | h in t.workers[w].rest ensures HeldOk(t, h) {
        var i :| 0 <= i < |due| && t.workers[w].rest[i] == h;
        assert due[i] in due;
      }
      ContinuingKeepsInv(s, t);
    }
  }

  /** Going on to the next loop leaves a hand in order. */
  lemma NextIsOk(s: State, w: Id)
    requires Inv(s) && w in s.workers && s.workers[w].rest != []
    ensures HeldOk(s, s.workers[w].rest[0])
    ensures s.workers[w].sent.Some? ==> IsTried(s.workers[w].rest[0].copy, s.workers[w].generation)
    ensures HandOk(s, Next(s, w)[w])
  {
    var rest := s.workers[w].rest;
    assert HandOk(s, s.workers[w]) && rest[0] in rest;
    forall h | h in rest[1..] ensures HeldOk(s, h) {
      assert h in rest;
    }
  }

  lemma WorkKeepsInv(s: State, e: Event)
    requires Inv(s) && (e.step.SetAside? || e.step.Send? || e.step.Conclude?)
    ensures Inv(Apply(s, e))
  {
    hide HandOk, Continues;
    var w, t := e.step.worker, Apply(s, e);
    StepContinues(s, e);
    if t != s {
      NextIsOk(s, w);
      if e.step.Send? {
        SentIsOk(s, w, e.step.newCommand);
      } else {
        HandStaysOk(s, t, Next(s, w)[w]);
      }
      ContinuingKeepsInv(s, t);
    }
  }

  lemma SentIsOk(s: State, w: Id, newCommand: Id)
    requires Inv(s) && SendCommand(s, w, newCommand) != s
    ensures var t := SendCommand(s, w, newCommand); w in t.workers && HandOk(t, t.workers[w])
  {
    assert HandOk(s, s.workers[w]);
  }

  lemma StepKeepsInv(s: State, e: Event)
    requires Inv(s)
    ensures Inv(Apply(s, e))
  {
    hide HandOk, Backoff, ReadDue, Continues;
    StepContinues(s, e);
    if e.step.SetAside? || e.step.Send? || e.step.Conclude? {
      WorkKeepsInv(s, e);
    } else if e.step.Read? {
      ReadKeepsInv(s, e.step.worker, e.step.policy, e.step.generation, e.step.due, e.now);
    } else {
      ContinuingKeepsInv(s, Apply(s, e));
    }
  }

  lemma {:induction false} RunKeepsInv(s: State, events: seq<Event>)
    requires Inv(s)
    ensures Inv(Run(s, events)) && Continues(s, Run(s, events))
    decreases events
  {
    hide Apply, Inv;
    if events != [] {
      StepKeepsInv(s, events[0]);
      StepContinues(s, events[0]);
      RunKeepsInv(Apply(s, events[0]), events[1..]);
    }
  }

  /** The commands a loop has sent with attempt numbers up to n. */
  function CommandsUpTo(issued: Issued, l: Id, n: nat): set<Id> {
    if n == 0 then {}
    else CommandsUpTo(issued, l, n - 1) + if (l, n) in issued then {issued[(l, n)]} else {}
  }

  lemma {:induction false} AtMostOneEach(issued: Issued, l: Id, n: nat)
    ensures |CommandsUpTo(issued, l, n)| <= n
    ensures forall m :: 1 <= m <= n && (l, m) in issued ==> issued[(l, m)] in CommandsUpTo(issued, l, n)
  {
    if n > 0 {
      AtMostOneEach(issued, l, n - 1);
    }
  }

  /** All different commands ever issued for a loop. */
  function CommandsOf(issued: Issued, l: Id): set<Id> {
    set k | k in issued && k.0 == l :: issued[k]
  }

  /** However workers crash and overlap, a loop never issues more different commands than it has attempts. */
  lemma CommandsWithinLimit(s: State, events: seq<Event>, l: Id)
    requires Inv(s) && l in s.loops
    ensures l in Run(s, events).loops && |CommandsOf(Run(s, events).issued, l)| <= s.loops[l].maxAttempts
    ensures Run(s, events).loops[l].attempts <= s.loops[l].maxAttempts
  {
    hide Run;
    RunKeepsInv(s, events);
    var t := Run(s, events);
    var limit := t.loops[l].maxAttempts;
    AtMostOneEach(t.issued, l, limit);
    forall c | c in CommandsOf(t.issued, l) ensures c in CommandsUpTo(t.issued, l, limit) {
      var k :| k in t.issued && k.0 == l && t.issued[k] == c;
      assert k == (l, k.1) && InLimit(t, k.0, k.1);
    }
    Smaller(CommandsOf(t.issued, l), CommandsUpTo(t.issued, l, limit));
  }

  lemma {:induction false} Smaller(a: set<Id>, b: set<Id>)
    requires a <= b
    ensures |a| <= |b|
  {
    if x :| x in a {
      Smaller(a - {x}, b - {x});
    }
  }

  /** A crash between the two commits costs nothing: whoever repeats the attempt gets the same command. */
  lemma RepeatedAttemptReusesCommand(s: State, events: seq<Event>, w: Id, l: Id, n: nat, newCommand: Id)
    requires Inv(s) && (l, n) in s.issued
    requires IsBusy(Run(s, events), w) && Run(s, events).workers[w].sent.None?
    requires var hand := Run(s, events).workers[w];
             && hand.rest[0].loop == l && hand.rest[0].copy.attempts + 1 == n
             && IsTried(hand.rest[0].copy, hand.generation)
    ensures var t := Run(s, events);
            && SendCommand(t, w, newCommand).issued == t.issued
            && SendCommand(t, w, newCommand).workers[w].sent == Some(s.issued[(l, n)])
  {
    hide Run;
    RunKeepsInv(s, events);
  }

  /* ---- Waiting out a failed attempt ---- */

  ghost predicate Holds(s: State, w: Id, l: Id) {
    w in s.workers && exists h :: h in s.workers[w].rest && h.loop == l
  }

  /** No worker holds the loop, and it is not planned for before the time. */
  ghost predicate Rests(s: State, l: Id, base: nat, attempts: nat, until: Time) {
    && l in s.loops && s.loops[l].baseBackoff == base && s.loops[l].attempts == attempts
    && (forall w :: !Holds(s, w, l))
    && (s.loops[l].status.Planned? ==> until <= s.loops[l].nextAt)
  }

  lemma RestContinues(s: State, e: Event, l: Id, base: nat, attempts: nat, until: Time)
    requires Rests(s, l, base, attempts, until) && e.now < until
    requires e.step.Report? && e.step.loop == l ==> until <= e.now + Backoff(base, e.step.maxBackoff, attempts)
    ensures Rests(Apply(s, e), l, base, attempts, until)
  {
    hide Backoff;
    var t := Apply(s, e);
    forall w ensures !Holds(t, w, l) {
      assert !Holds(s, w, l);
      if w in t.workers && (w !in s.workers || t.workers[w] != s.workers[w]) {
        forall h | h in t.workers[w].rest ensures h.loop != l {
          if e.step.Read? {
            var i :| 0 <= i < |e.step.due| && t.workers[w].rest[i] == h;
            assert e.step.due[i] in e.step.due;
          } else {
            assert h in s.workers[w].rest;
          }
        }
      }
    }
    if (e.step.SetAside? || e.step.Conclude?) && IsBusy(s, e.step.worker) {
      assert !Holds(s, e.step.worker, l) && s.workers[e.step.worker].rest[0] in s.workers[e.step.worker].rest;
    }
  }

  ghost predicate During(events: seq<Event>, l: Id, maxBackoff: nat, now: Time, until: Time) {
    forall e :: e in events ==>
      now <= e.now < until && (e.step.Report? && e.step.loop == l ==> maxBackoff <= e.step.maxBackoff)
  }

  lemma {:induction false} RestsThroughout(s: State, events: seq<Event>, l: Id, base: nat, attempts: nat,
                                           maxBackoff: nat, now: Time)
    requires Rests(s, l, base, attempts, now + Backoff(base, maxBackoff, attempts))
    requires During(events, l, maxBackoff, now, now + Backoff(base, maxBackoff, attempts))
    ensures Rests(Run(s, events), l, base, attempts, now + Backoff(base, maxBackoff, attempts))
    decreases events
  {
    hide Apply, Rests;
    if events != [] {
      assert events[0] in events;
      RestContinues(s, events[0], l, base, attempts, now + Backoff(base, maxBackoff, attempts));
      RestsThroughout(Apply(s, events[0]), events[1..], l, base, attempts, maxBackoff, now);
    }
  }

  /**
   * After a failed attempt no worker takes the loop up before its wait is over,
   * whatever else happens in between, under a maximum wait that is not lowered and
   * unless a worker held the loop already.
   */
  lemma WaitIsKept(s: State, l: Id, command: Option<Id>, maxBackoff: nat, now: Time, events: seq<Event>, w: Id)
    requires l in s.loops && s.loops[l].status.Waiting? && s.loops[l].attempts < s.loops[l].maxAttempts
    requires (command.Some? ==> s.loops[l].lastCommand == command) && forall v :: !Holds(s, v, l)
    requires During(events, l, maxBackoff, now, now + Backoff(s.loops[l].baseBackoff, maxBackoff, s.loops[l].attempts))
    ensures !Holds(Run(ReportOutcome(s, l, FailedAttempt, command, maxBackoff, now), events), w, l)
  {
    hide Backoff, Run;
    var t := ReportOutcome(s, l, FailedAttempt, command, maxBackoff, now);
    var base, attempts := s.loops[l].baseBackoff, s.loops[l].attempts;
    assert Rests(t, l, base, attempts, now + Backoff(base, maxBackoff, attempts)) by {
      forall v ensures !Holds(t, v, l) {
        assert !Holds(s, v, l);
      }
    }
    RestsThroughout(t, events, l, base, attempts, maxBackoff, now);
  }

  /** When the wait is over a cycle may take the loop up. */
  lemma WaitEnds(s: State, l: Id, command: Option<Id>, maxBackoff: nat, now: Time, w: Id, generation: nat, later: Time)
    requires l in s.loops && s.loops[l].status.Waiting? && s.loops[l].attempts < s.loops[l].maxAttempts && IsIdle(s, w)
    requires command.Some? ==> s.loops[l].lastCommand == command
    requires now + Backoff(s.loops[l].baseBackoff, maxBackoff, s.loops[l].attempts) <= later
    ensures var t := ReportOutcome(s, l, FailedAttempt, command, maxBackoff, now);
            Holds(ReadDue(t, w, s.loops[l].policy, generation, [l], later), w, l)
  {
    hide Backoff;
    var t := ReportOutcome(s, l, FailedAttempt, command, maxBackoff, now);
    assert forall k :: k in [l] ==> k == l;
    var u := ReadDue(t, w, s.loops[l].policy, generation, [l], later);
    assert u.workers[w].rest[0].loop == l;
    assert u.workers[w].rest[0] in u.workers[w].rest;
  }

  /* ---- When the end of a loop is final ---- */

  /** The copy will be written back as paused or waiting, and not as exhausted. */
  predicate RevivesLoop(copy: Loop, generation: nat) {
    copy.policyGeneration != generation || copy.attempts < copy.maxAttempts
  }

  /** Some worker holds a copy of the loop from which it will pause or try it. */
  ghost predicate InHand(s: State, l: Id) {
    exists w, i :: InHandAt(s, w, i, l)
  }

  ghost predicate InHandAt(s: State, w: Id, i: nat, l: Id) {
    && w in s.workers && i < |s.workers[w].rest|
    && s.workers[w].rest[i].loop == l && RevivesLoop(s.workers[w].rest[i].copy, s.workers[w].generation)
  }

  /** Every copy in the later state was there before, or is of a loop that was planned. */
  lemma CopiesComeFrom(s: State, e: Event, w: Id, i: nat, l: Id)
    requires InHandAt(Apply(s, e), w, i, l)
    ensures InHand(s, l) || (l in s.loops && s.loops[l].status.Planned?)
  {
    hide Backoff;
    var t := Apply(s, e);
    if w in s.workers && t.workers[w].rest == s.workers[w].rest && t.workers[w].generation == s.workers[w].generation {
      assert InHandAt(s, w, i, l);
    } else if e.step.Read? {
      assert e.step.due[i] in e.step.due;
    } else {
      assert InHandAt(s, w, i + 1, l);
    }
  }

  lemma OverStays(s: State, e: Event, l: Id)
    requires Inv(s) && l in s.loops && IsOver(s.loops[l].status) && !InHand(s, l)
    ensures l in Apply(s, e).loops && IsOver(Apply(s, e).loops[l].status) && !InHand(Apply(s, e), l)
  {
    hide Backoff;
    forall w, i: nat ensures !InHandAt(Apply(s, e), w, i, l) {
      if InHandAt(Apply(s, e), w, i, l) {
        CopiesComeFrom(s, e, w, i, l);
      }
    }
    if (e.step.SetAside? || e.step.Conclude?) && IsBusy(s, e.step.worker) {
      assert HandOk(s, s.workers[e.step.worker]) && !InHandAt(s, e.step.worker, 0, l);
    }
  }

  lemma {:induction false} OverForEver(s: State, events: seq<Event>, l: Id)
    requires Inv(s) && l in s.loops && IsOver(s.loops[l].status) && !InHand(s, l)
    ensures OverAfter(s, events, l)
    decreases events
  {
    hide Apply, InHand, Inv;
    if events != [] {
      OverStays(s, events[0], l);
      StepKeepsInv(s, events[0]);
      OverForEver(Apply(s, events[0]), events[1..], l);
    }
  }

  predicate OverAfter(s: State, events: seq<Event>, l: Id) {
    l in Run(s, events).loops && IsOver(Run(s, events).loops[l].status)
  }

  /** What a worker does with its first loop when it is not disturbed. */
  function Processed(s: State, w: Id, command: Id): State {
    if IsBusy(s, w) && IsTried(s.workers[w].rest[0].copy, s.workers[w].generation) then
      ConcludeAttempt(SendCommand(s, w, command), w)
    else SetLoopAside(s, w)
  }

  lemma ProcessedIsRun(s: State, w: Id, command: Id) returns (events: seq<Event>)
    ensures Run(s, events) == Processed(s, w, command)
    ensures forall more :: Run(s, events + more) == Run(Run(s, events), more)
  {
    var e1, e2, e3 := Event(Send(w, command), 0), Event(Conclude(w), 0), Event(SetAside(w), 0);
    if IsBusy(s, w) && IsTried(s.workers[w].rest[0].copy, s.workers[w].generation) {
      events := [e1, e2];
      assert events[1..] == [e2] && [e2][1..] == [];
      assert Run(Apply(s, e1), [e2]) == Run(Apply(Apply(s, e1), e2), []);
    } else {
      events := [e3];
      assert events[1..] == [];
    }
    RunInParts(s, events);
  }

  /** A run can be cut anywhere. */
  lemma RunInParts(s: State, events: seq<Event>)
    ensures forall more :: Run(s, events + more) == Run(Run(s, events), more)
  {
    forall more ensures Run(s, events + more) == Run(Run(s, events), more) {
      RunOfBoth(s, events, more);
    }
  }

  lemma {:induction false} RunOfBoth(s: State, events: seq<Event>, more: seq<Event>)
    ensures Run(s, events + more) == Run(Run(s, events), more)
    decreases events
  {
    if events == [] {
      assert events + more == more;
    } else {
      assert (events + more)[0] == events[0] && (events + more)[1..] == events[1..] + more;
      RunOfBoth(Apply(s, events[0]), events[1..], more);
    }
  }

  /** A worker that holds such a copy gets to it and puts the loop back, whatever it has become. */
  lemma {:induction false} CopyRevives(s: State, w: Id, i: nat, l: Id, command: Id) returns (events: seq<Event>)
    requires Inv(s) && InHandAt(s, w, i, l)
    ensures !OverAfter(s, events, l)
    decreases i
  {
    hide Run;
    var t := Processed(s, w, command);
    var first := ProcessedIsRun(s, w, command);
    HeadIsBusy(s, w);
    if s.workers[w].rest[0].loop == l && RevivesLoop(s.workers[w].rest[0].copy, s.workers[w].generation) {
      events := first;
      assert !IsOver(t.loops[l].status);
    } else {
      assert InHandAt(t, w, i - 1, l);
      RunKeepsInv(s, first);
      var more := CopyRevives(t, w, i - 1, l, command);
      events := first + more;
    }
  }

  lemma HeadIsBusy(s: State, w: Id)
    requires Inv(s) && w in s.workers && s.workers[w].rest != []
    ensures IsBusy(s, w)
  {
    assert HandOk(s, s.workers[w]) && s.workers[w].rest[0] in s.workers[w].rest;
  }

  /**
   * A cycle reads a loop of an older policy generation, a kill cancels it, and the
   * cycle then pauses it. A failure reported for it plans it once more.
   */
  lemma CancelledLoopIsPlannedAgain()
    ensures var loop := Loop(1, 2, 3, Planned, 0, 5, 60, 0, 1, None, 1);
            var s := State(map[7 := loop], map[], map[]);
            var read, kill := Event(Step.Read(0, 3, 2, [7]), 10), Event(Stop(7, Killed), 11);
            var aside, failed := Event(SetAside(0), 12), Event(Report(7, FailedAttempt, None, 900), 13);
            && Apply(Apply(s, read), kill).loops[7].status.LoopCancelled?
            && Apply(Apply(Apply(Apply(s, read), kill), aside), failed).loops[7].status.Planned?
  {
    hide Backoff;
    var loop := Loop(1, 2, 3, Planned, 0, 5, 60, 0, 1, None, 1);
    var s1 := Apply(State(map[7 := loop], map[], map[]), Event(Step.Read(0, 3, 2, [7]), 10));
    assert s1.workers[0].rest == [Held(7, loop)];
    var s2 := Apply(s1, Event(Stop(7, Killed), 11));
    assert s2.loops[7] == loop.(status := LoopCancelled, generation := 2);
    var s3 := Apply(s2, Event(SetAside(0), 12));
    assert s3.loops[7] == loop.(status := LoopPaused, generation := 2);
  }

  /**
   * A loop that has succeeded, run out or been cancelled is over for good exactly
   * when no worker holds a copy of it from which it will pause it or try it: such a
   * worker writes even a cancelled loop back to paused or waiting.
   */
  lemma OverIsFinalExactly(s: State, l: Id)
    requires Inv(s) && l in s.loops && IsOver(s.loops[l].status)
    ensures (forall events :: OverAfter(s, events, l)) <==> !InHand(s, l)
  {
    hide Inv, OverAfter;
    if !InHand(s, l) {
      forall events ensures OverAfter(s, events, l) {
        OverForEver(s, events, l);
      }
    } else {
      var w, i :| InHandAt(s, w, i, l);
      var events := CopyRevives(s, w, i, l, 0);
      assert !OverAfter(s, events, l);
    }
  }
}
