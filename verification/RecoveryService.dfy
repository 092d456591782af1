/**
 * The recovery worker over its tables. Each method that takes a worker is one commit,
 * so that other workers and reports may come in between; RunCycle is a cycle into
 * which nobody comes in.
 */
module RecoveryService {
  import opened Common
  import opened Autonomy
  import opened Recovery

  /** What a cycle leaves of a loop that was due; `command` is the one found under the attempt's key. */
  function AfterCycle(was: Loop, generation: nat, command: Id): Loop {
    if was.policyGeneration != generation then was.(status := LoopPaused, generation := was.generation + 1)
    else if was.attempts >= was.maxAttempts then was.(status := Exhausted)
    else was.(status := Waiting, attempts := was.attempts + 1, lastCommand := Some(command))
  }

  predicate IsPaused(was: Loop, generation: nat) {
    was.policyGeneration != generation
  }

  /** The command an attempt on the loop uses: the one already issued under its key, else the new one. */
  function CommandFor(issued: Issued, l: Id, loop: Loop, newCommand: Id): Id {
    if (l, loop.attempts + 1) in issued then issued[(l, loop.attempts + 1)] else newCommand
  }

  /** The state after a loop has been dealt with by a copy that is still right. */
  function Attempted(s: State, l: Id, generation: nat, newCommand: Id): State
    requires l in s.loops
  {
    var command := CommandFor(s.issued, l, s.loops[l], newCommand);
    s.(loops := s.loops[l := AfterCycle(s.loops[l], generation, command)],
       issued := if !IsTried(s.loops[l], generation) then s.issued
                 else s.issued[(l, s.loops[l].attempts + 1) := command])
  }

  /** A worker whose copy is still right leaves the loop as an attempt on the loop itself would. */
  lemma UndisturbedAttempt(s: State, w: Id, newCommand: Id)
    requires IsBusy(s, w) && s.workers[w].sent.None?
    requires s.workers[w].rest[0].copy == s.loops[s.workers[w].rest[0].loop]
    ensures Processed(s, w, newCommand)
         == Attempted(s, s.workers[w].rest[0].loop, s.workers[w].generation, newCommand).(workers := Next(s, w))
  {
  }

  /** Every loop of the list has been dealt with once, and nothing else has changed. */
  ghost predicate Cycled(before: State, now: State, due: seq<Id>, newCommands: seq<Id>, generation: nat) {
    && LoopsCycled(before, now, due, newCommands, generation)
    && KeysAdded(before, now.issued, due, newCommands, generation)
  }

  ghost predicate LoopsCycled(before: State, now: State, due: seq<Id>, newCommands: seq<Id>, generation: nat) {
    && |newCommands| == |due| && now.loops.Keys == before.loops.Keys && (forall l :: l in due ==> l in before.loops)
    && (forall i :: 0 <= i < |due| ==>
          now.loops[due[i]] == AfterCycle(before.loops[due[i]], generation,
                                          CommandFor(before.issued, due[i], before.loops[due[i]], newCommands[i])))
    && forall l :: l in before.loops && l !in due ==> now.loops[l] == before.loops[l]
  }

  /** The keys after the cycle are those before it and one for each attempt, with the command the attempt has used. */
  ghost predicate KeysAdded(before: State, now: Issued, due: seq<Id>, newCommands: seq<Id>, generation: nat)
    requires |newCommands| == |due| && forall l :: l in due ==> l in before.loops
  {
    && (forall k :: k in before.issued ==> k in now && now[k] == before.issued[k])
    && (forall i :: 0 <= i < |due| && IsTried(before.loops[due[i]], generation) ==>
          && AttemptKey(before, due[i]) in now
          && now[AttemptKey(before, due[i])] == CommandFor(before.issued, due[i], before.loops[due[i]], newCommands[i]))
    && forall k :: k in now && k !in before.issued ==>
         k.0 in due && IsTried(before.loops[k.0], generation) && k == AttemptKey(before, k.0)
  }

  function AttemptKey(s: State, l: Id): (Id, nat)
    requires l in s.loops
  {
    (l, s.loops[l].attempts + 1)
  }

  lemma CycleStep(before: State, now: State, due: seq<Id>, newCommands: seq<Id>, l: Id, newCommand: Id,
                  generation: nat, workers: map<Id, Hand>)
    requires Cycled(before, now, due, newCommands, generation) && l in before.loops && l !in due
    ensures l in now.loops && now.loops[l] == before.loops[l]
    ensures forall d :: d in due + [l] ==> d in before.loops
    ensures var t := Attempted(now, l, generation, newCommand).(workers := workers);
            && t.loops.Keys == before.loops.Keys
            && Cycled(before, t, due + [l], newCommands + [newCommand], generation)
  {
    assert now.loops[l] == before.loops[l];
    assert CommandFor(now.issued, l, before.loops[l], newCommand)
        == CommandFor(before.issued, l, before.loops[l], newCommand) by {
      assert AttemptKey(before, l) in now.issued <==> AttemptKey(before, l) in before.issued;
    }
    hide CommandFor, AfterCycle;
    LoopCycles(before, now, due, newCommands, l, newCommand, generation);
    KeyIsAdded(before, now, due, newCommands, l, newCommand, generation);
    hide LoopsCycled, KeysAdded;
  }

  lemma LoopCycles(before: State, now: State, due: seq<Id>, newCommands: seq<Id>, l: Id, newCommand: Id,
                   generation: nat)
    requires LoopsCycled(before, now, due, newCommands, generation) && l in before.loops && l !in due
    requires CommandFor(now.issued, l, before.loops[l], newCommand)
          == CommandFor(before.issued, l, before.loops[l], newCommand)
    ensures LoopsCycled(before, Attempted(now, l, generation, newCommand), due + [l], newCommands + [newCommand],
                        generation)
  {
    hide AfterCycle, CommandFor;
    var after := Attempted(now, l, generation, newCommand);
    forall d | d in before.loops && d !in due + [l] ensures after.loops[d] == before.loops[d] {
      assert d !in due && d != l;
    }
  }

  lemma KeyIsAdded(before: State, now: State, due: seq<Id>, newCommands: seq<Id>, l: Id, newCommand: Id,
                   generation: nat)
    requires |newCommands| == |due| && forall d :: d in due + [l] ==> d in before.loops
    requires KeysAdded(before, now.issued, due, newCommands, generation) && l !in due
    requires l in now.loops && now.loops[l] == before.loops[l]
    requires CommandFor(now.issued, l, before.loops[l], newCommand)
          == CommandFor(before.issued, l, before.loops[l], newCommand)
    ensures KeysAdded(before, Attempted(now, l, generation, newCommand).issued, due + [l], newCommands + [newCommand],
                      generation)
  {
    var after := Attempted(now, l, generation, newCommand);
    forall k | k in before.issued ensures k in after.issued && after.issued[k] == before.issued[k] {
      if k == AttemptKey(before, l) {
        assert CommandFor(before.issued, l, before.loops[l], newCommand) == before.issued[k];
      }
    }
  }

  function TriedIn(loops: map<Id, Loop>, due: seq<Id>, generation: nat): set<Id> {
    set l | l in due && l in loops && IsTried(loops[l], generation)
  }

  function PausedIn(loops: map<Id, Loop>, due: seq<Id>, generation: nat): set<Id> {
    set l | l in due && l in loops && IsPaused(loops[l], generation)
  }

  lemma CountStep(loops: map<Id, Loop>, due: seq<Id>, l: Id, generation: nat)
    requires l in loops && l !in due
    ensures |TriedIn(loops, due + [l], generation)|
         == |TriedIn(loops, due, generation)| + if IsTried(loops[l], generation) then 1 else 0
    ensures |PausedIn(loops, due + [l], generation)|
         == |PausedIn(loops, due, generation)| + if IsPaused(loops[l], generation) then 1 else 0
  {
    var a, p := TriedIn(loops, due, generation), PausedIn(loops, due, generation);
    assert TriedIn(loops, due + [l], generation) == if IsTried(loops[l], generation) then a + {l} else a;
    assert PausedIn(loops, due + [l], generation) == if IsPaused(loops[l], generation) then p + {l} else p;
  }

  /** The first i loops of the list have been dealt with, and the worker holds the others as they were read. */
  ghost predicate Midway(before: State, now: State, w: Id, due: seq<Id>, newCommands: seq<Id>, generation: nat,
                         i: nat)
  {
    && Distinct(due) && i <= |due| == |newCommands| && (forall l :: l in due ==> l in before.loops)
    && now.workers == before.workers[w := Hand(generation, Copies(before.loops, due)[i..], None)]
    && Cycled(before, now, due[..i], newCommands[..i], generation)
  }

  lemma NothingCycled(before: State, w: Id, policy: Id, due: seq<Id>, newCommands: seq<Id>, generation: nat, now: Time)
    requires IsIdle(before, w) && Distinct(due) && |due| == |newCommands|
    requires forall l :: l in due ==> IsDue(before, l, policy, now)
    ensures Midway(before, ReadDue(before, w, policy, generation, due, now), w, due, newCommands, generation, 0)
    ensures TriedIn(before.loops, due[..0], generation) == {} && PausedIn(before.loops, due[..0], generation) == {}
  {
    var t := ReadDue(before, w, policy, generation, due, now);
    assert t == before.(workers := before.workers[w := Hand(generation, Copies(before.loops, due), None)]);
    assert Copies(before.loops, due)[0..] == Copies(before.loops, due);
    assert due[..0] == [] && newCommands[..0] == [];
    assert LoopsCycled(before, t, [], [], generation);
    assert KeysAdded(before, t.issued, [], [], generation);
  }

  lemma MidwayStep(before: State, now: State, w: Id, due: seq<Id>, newCommands: seq<Id>, generation: nat, i: nat)
    requires Midway(before, now, w, due, newCommands, generation, i) && i < |due|
    ensures IsBusy(now, w) && now.workers[w].sent.None?
    ensures w in now.workers && now.workers[w].rest != []
    ensures now.workers[w].rest[0] == Held(due[i], before.loops[due[i]])
    ensures due[i] in before.loops && due[i] !in due[..i]
    ensures Midway(before, Processed(now, w, newCommands[i]), w, due, newCommands, generation, i + 1)
  {
    hide Cycled, Attempted, Processed;
    var l := due[i];
    var copies := Copies(before.loops, due);
    assert l in due && l !in due[..i] && due[..i + 1] == due[..i] + [l];
    assert newCommands[..i + 1] == newCommands[..i] + [newCommands[i]];
    assert copies[i..][0] == Held(l, before.loops[l]) && copies[i..][1..] == copies[i + 1..];
    CycleStep(before, now, due[..i], newCommands[..i], l, newCommands[i], generation, Next(now, w));
    UndisturbedAttempt(now, w, newCommands[i]);
  }

  lemma MidwayEnds(before: State, now: State, w: Id, due: seq<Id>, newCommands: seq<Id>, generation: nat)
    requires Midway(before, now, w, due, newCommands, generation, |due|)
    ensures Cycled(before, now, due, newCommands, generation)
    ensures now.workers == before.workers[w := Hand(generation, [], None)]
  {
    assert due[..|due|] == due && newCommands[..|due|] == newCommands;
    assert Copies(before.loops, due)[|due|..] == [];
  }

  class RecoveryWorker {
    var loops: map<Id, Loop>
    var issued: Issued
    var workers: map<Id, Hand>

    function Contents(): State
      reads this
    {
      State(loops, issued, workers)
    }

    /** The query for loops of the policy that are due. */
    method ReadLoops(w: Id, policy: Id, generation: nat, due: seq<Id>, now: Time)
      requires Inv(Contents()) && IsIdle(Contents(), w) && Distinct(due)
      requires forall l :: l in due ==> IsDue(Contents(), l, policy, now)
      modifies this`workers
      ensures Inv(Contents()) && Contents() == ReadDue(old(Contents()), w, policy, generation, due, now)
    {
      ReadKeepsInv(Contents(), w, policy, generation, due, now);
      assert forall j :: 0 <= j < |due| ==> due[j] in due;
      hide Inv, Distinct;
      var rest: seq<Held> := [];
      for i := 0 to |due|
        invariant |rest| == i && forall j :: 0 <= j < i ==> rest[j] == Held(due[j], loops[due[j]])
      {
        rest := rest + [Held(due[i], loops[due[i]])];
      }
      assert rest == Copies(loops, due);
      workers := workers[w := Hand(generation, rest, None)];
    }

    /** A loop of an older policy generation is paused, and one without attempts left is ended. */
    method SetAside(w: Id)
      requires Inv(Contents()) && IsBusy(Contents(), w) && !IsTried(workers[w].rest[0].copy, workers[w].generation)
      modifies this`loops, this`workers
      ensures Inv(Contents()) && Contents() == SetLoopAside(old(Contents()), w)
    {
      StepKeepsInv(Contents(), Recovery.Event(Step.SetAside(w), 0));
      hide Inv;
      var hand := workers[w];
      var l, copy := hand.rest[0].loop, hand.rest[0].copy;
      if copy.policyGeneration != hand.generation {
        loops := loops[l := loops[l].(status := LoopPaused, generation := copy.generation + 1)];
      } else {
        loops := loops[l := loops[l].(status := Exhausted)];
      }
      workers := workers[w := Hand(hand.generation, hand.rest[1..], None)];
    }

    /** The first commit of an attempt. */
    method Send(w: Id, newCommand: Id)
      requires Inv(Contents()) && IsBusy(Contents(), w) && workers[w].sent.None?
      requires IsTried(workers[w].rest[0].copy, workers[w].generation)
      modifies this`issued, this`workers
      ensures Inv(Contents()) && Contents() == SendCommand(old(Contents()), w, newCommand)
    {
      StepKeepsInv(Contents(), Recovery.Event(Step.Send(w, newCommand), 0));
      hide Inv;
      var key := (workers[w].rest[0].loop, workers[w].rest[0].copy.attempts + 1);
      if key !in issued {
        issued := issued[key := newCommand];
      }
      workers := workers[w := workers[w].(sent := Some(issued[key]))];
    }

    /** The second commit of an attempt, which writes only what differs from the copy. */
    method Conclude(w: Id)
      requires Inv(Contents()) && IsBusy(Contents(), w) && workers[w].sent.Some?
      modifies this`loops, this`workers
      ensures Inv(Contents()) && Contents() == ConcludeAttempt(old(Contents()), w)
    {
      StepKeepsInv(Contents(), Recovery.Event(Step.Conclude(w), 0));
      hide Inv;
      var hand := workers[w];
      var copy := hand.rest[0].copy;
      var loop := loops[hand.rest[0].loop].(attempts := copy.attempts + 1, status := Waiting);
      if copy.lastCommand != hand.sent {
        loop := loop.(lastCommand := hand.sent);
      }
      loops := loops[hand.rest[0].loop := loop];
      workers := workers[w := Hand(hand.generation, hand.rest[1..], None)];
    }

    /** All commits on the next loop of a worker. */
    method Process(w: Id, newCommand: Id)
      requires Inv(Contents()) && IsBusy(Contents(), w) && workers[w].sent.None?
      modifies this
      ensures Inv(Contents()) && Contents() == Processed(old(Contents()), w, newCommand)
    {
      if IsTried(workers[w].rest[0].copy, workers[w].generation) {
        Send(w, newCommand);
        Conclude(w);
      } else {
        SetAside(w);
      }
    }

    /**
     * One cycle of a worker that nobody comes between. `due` are the loops the query
     * finds, and for each of them there is an id that a new command would get.
     */
    method RunCycle(w: Id, policy: Id, generation: nat, due: seq<Id>, newCommands: seq<Id>, now: Time)
      returns (sent: nat, paused: nat)
      requires Inv(Contents()) && IsIdle(Contents(), w) && Distinct(due) && |newCommands| == |due|
      requires forall l :: l in due ==> IsDue(Contents(), l, policy, now)
      modifies this
      ensures Inv(Contents()) && workers == old(workers)[w := Hand(generation, [], None)]
      ensures Cycled(old(Contents()), Contents(), due, newCommands, generation)
      ensures sent == |TriedIn(old(loops), due, generation)|
      ensures paused == |PausedIn(old(loops), due, generation)|
    {
      hide Inv, Midway, TriedIn, PausedIn, Processed, ReadDue, IsIdle, IsDue, IsBusy, Distinct, Cycled;
      ghost var before := Contents();
      NothingCycled(before, w, policy, due, newCommands, generation, now);
      ReadLoops(w, policy, generation, due, now);
      sent, paused := 0, 0;
      for i := 0 to |due|
        invariant Inv(Contents()) && Midway(before, Contents(), w, due, newCommands, generation, i)
        invariant sent == |TriedIn(before.loops, due[..i], generation)|
        invariant paused == |PausedIn(before.loops, due[..i], generation)|
      {
        MidwayStep(before, Contents(), w, due, newCommands, generation, i);
        assert due[..i + 1] == due[..i] + [due[i]];
        CountStep(before.loops, due[..i], due[i], generation);
        var copy := workers[w].rest[0].copy;
        if copy.policyGeneration != generation {
          paused := paused + 1;
        } else if copy.attempts < copy.maxAttempts {
          sent := sent + 1;
        }
        Process(w, newCommands[i]);
      }
      MidwayEnds(before, Contents(), w, due, newCommands, generation);
      assert due[..|due|] == due;
    }

    method RecordOutcome(l: Id, outcome: Recovery.Outcome, command: Option<Id>, maxBackoff: nat, now: Time)
      requires Inv(Contents())
      modifies this`loops
      ensures Inv(Contents()) && Contents() == ReportOutcome(old(Contents()), l, outcome, command, maxBackoff, now)
    {
      ghost var before := Contents();
      StepKeepsInv(before, Recovery.Event(Report(l, outcome, command, maxBackoff), now));
      hide Inv;
      if l !in loops {
        return;
      }
      var loop := loops[l];
      if !(loop.status.Waiting? || loop.status.LoopPaused?) || (command.Some? && loop.lastCommand != command) {
        return;
      }
      match outcome {
        case Succeeded => loop := loop.(status := LoopSucceeded);
        case GivenUp => loop := loop.(status := LoopCancelled);
        case FailedAttempt =>
          if loop.attempts >= loop.maxAttempts {
            loop := loop.(status := Exhausted);
          } else {
            loop := loop.(status := Planned, nextAt := now + Backoff(loop.baseBackoff, maxBackoff, loop.attempts));
          }
      }
      loops := loops[l := loop.(generation := loop.generation + 1)];
    }
  }
}
