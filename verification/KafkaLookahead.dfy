/** What the look-ahead loop does get done: good answers never stop it, it can always drain its queue, and each
    bad answer stops it. */
module KafkaLookahead {
  import opened KafkaBroker
  import opened KafkaConsumer
  import opened KafkaControl

  /** Nothing bad happens in a step: no stop, no refused commit, no unresolved record, no failing predicate. */
  predicate Good(o: Options, step: Step) {
    match step
    case CommitFront(result) => result == Acked
    case Poll(a) => !a.PredicateThrew?
    case RunControl(out) => Resolved(o, out)
    case WorkerHandles(out) => Resolved(o, out)
    case StopRequested => false
    case _ => true
  }

  predicate AllGood(o: Options, steps: seq<Step>) {
    forall i | 0 <= i < |steps| :: Good(o, steps[i])
  }

  predicate Alive(s: State) {
    s.running && !s.failed && s.pc != Exited && !s.work.Failing? && (s.work.Finished? ==> s.work.ok)
  }

  lemma AliveStep(o: Options, position: Offsets, s: State, step: Step)
    requires o.hasControls && WorkInv(s) && Alive(s) && Good(o, step)
    ensures Alive(Apply(o, position, s, step))
  {
  }

  /** No interleaving of good steps stops the loop. */
  lemma {:induction false} HealthyNeverHalts(o: Options, position: Offsets, s: State, steps: seq<Step>)
    requires o.hasControls && Inv(o, s) && Alive(s) && AllGood(o, steps)
    ensures Alive(Run(o, position, s, steps))
    decreases |steps|
  {
    if steps != [] {
      AliveStep(o, position, s, steps[0]);
      ApplyInv(o, position, s, steps[0]);
      assert forall i | 0 <= i < |steps[1..]| :: steps[1..][i] == steps[i + 1];
      HealthyNeverHalts(o, position, Apply(o, position, s, steps[0]), steps[1..]);
    }
  }

  // ----- what single steps decide

  /** A record that arrives is queued if and only if there is room for it: fewer than the configured number of records
      and less than 16 MiB are pending. Otherwise it has not been polled at all. */
  lemma TakenExactlyWhen(o: Options, position: Offsets, s: State, r: Record, control: bool)
    requires Enabled(o, position, s, Poll(Arrived(r, control)))
    ensures var s' := Apply(o, position, s, Poll(Arrived(r, control)));
            if |s.pending| < o.maxBatch && s.pendingBytes < 16777216
            then s'.polled == s.polled + [r] && s'.pending == s.pending + [Pending(r, false)] && (s'.pc == Inline <==> control)
            else s' == s.(pc := Collect)
  {
  }

  /** The worker's record is settled if it is handled or dead-lettered; the main thread then marks it durable, or
      stops the loop. */
  lemma WorkExactly(o: Options, position: Offsets, s: State, out: Outcome)
    requires Inv(o, s) && s.pc == Collect && s.work.Running? && s.running && !s.failed
    ensures var s' := Run(o, position, s, [WorkerHandles(out), WorkerHalts, CollectWork]);
            if Resolved(o, out) then
              s'.pc == CheckFront && !s'.failed && s'.running && IsSettled(s'.broker, s.work.job) &&
              s'.pending != [] && s'.pending[0].durable
            else s'.pc == Exited && s'.failed && !s'.running && s'.broker == s.broker
  {
    var a := Apply(o, position, s, WorkerHandles(out));
    var b := Apply(o, position, a, WorkerHalts);
    RunThree(o, position, s, WorkerHandles(out), WorkerHalts, CollectWork);
    assert b.work == Finished(s.work.job, Resolved(o, out));
  }

  lemma RunThree(o: Options, position: Offsets, s: State, a: Step, b: Step, c: Step)
    ensures Run(o, position, s, [a, b, c]) == Apply(o, position, Apply(o, position, Apply(o, position, s, a), b), c)
  {
    RunTwo(o, position, s, a, b, [c]);
    assert [a, b, c] == [a, b] + [c] && [c][1..] == [];
  }

  /** A control record is marked durable if it is handled or dead-lettered; otherwise, and when a commit is not
      acknowledged or the predicate throws, the loop stops for good. */
  lemma BadAnswersHalt(o: Options, position: Offsets, s: State, out: Outcome, result: CommitResult)
    requires o.hasControls && Inv(o, s) && !s.failed
    ensures s.pc == Inline ==>
              var s' := Apply(o, position, s, RunControl(out));
              if Resolved(o, out) then s'.pc == Collect && !s'.failed && s'.pending[|s.pending| - 1].durable &&
                                       IsSettled(s'.broker, s.pending[|s.pending| - 1].record)
              else s'.pc == Exited && s'.failed && !s'.running
    ensures s.pc == Committing && result != Acked ==>
              var s' := Apply(o, position, s, CommitFront(result)); s'.pc == Exited && s'.failed && !s'.running
    ensures s.pc == Polling && |s.pending| < o.maxBatch && s.pendingBytes < 16777216 ==>
              var s' := Apply(o, position, s, Poll(PredicateThrew)); s'.pc == Exited && s'.failed && !s'.running
  {
  }

  /** An unresolved record of the worker is a failure at once when there is a dead-letter topic: whatever else happens
      before the main thread notices, nothing more is committed. */
  lemma FailureStopsCommits(o: Options, position: Offsets, s: State, out: Outcome, steps: seq<Step>)
    requires o.hasControls && Inv(o, s) && s.work.Running? && !Resolved(o, out) && o.hasDeadLetter
    ensures var s' := Run(o, position, Apply(o, position, s, WorkerHandles(out)), steps);
            s'.failed && s'.commits == s.commits && s'.broker.committed == s.broker.committed
  {
    var m := Apply(o, position, s, WorkerHandles(out));
    ApplyInv(o, position, s, WorkerHandles(out));
    HaltedNeverCommits(o, position, m, steps);
  }

  /** A stop request ends the loop the next time the main thread looks: at its top, or once the durable records at the
      front have been committed. */
  lemma StopIsSeen(o: Options, position: Offsets, s: State)
    ensures s.pc == Collect ==>
              Apply(o, position, Apply(o, position, s, Step.StopRequested), CollectWork) == s.(running := false, pc := Exited)
    ensures s.pc == CheckFront && (s.pending == [] || !s.pending[0].durable || s.failed) ==>
              Apply(o, position, Apply(o, position, s, Step.StopRequested), Check) == s.(running := false, pc := Exited)
  {
  }

  /** Once the main thread has left the loop nothing more is polled, started, handled inline or committed. */
  lemma {:induction false} ExitIsFinal(o: Options, position: Offsets, s: State, steps: seq<Step>)
    requires s.pc == Exited
    ensures var s' := Run(o, position, s, steps);
            && s'.pc == Exited && s'.polled == s.polled && s'.commits == s.commits
            && s'.ordinary == s.ordinary && s'.inline == s.inline && s'.pending == s.pending
    decreases |steps|
  {
    if steps != [] {
      ExitIsFinal(o, position, Apply(o, position, s, steps[0]), steps[1..]);
    }
  }

  // ----- draining

  lemma {:induction false} RunAppend(o: Options, position: Offsets, s: State, before: seq<Step>, after: seq<Step>)
    ensures Run(o, position, s, before + after) == Run(o, position, Run(o, position, s, before), after)
    decreases |before|
  {
    if before == [] {
      assert before + after == after;
    } else {
      assert (before + after)[0] == before[0] && (before + after)[1..] == before[1..] + after;
      RunAppend(o, position, Apply(o, position, s, before[0]), before[1..], after);
    }
  }

  /** What the commit pass leaves alone. */
  lemma {:induction false} PassKeeps(s: State, i: nat)
    requires s.pc == CheckFront && s.running && !s.failed
    ensures var s' := CommitWhile(s, _ => Acked, i);
            s'.pc == StartFront && s'.running && !s'.failed && s'.work == s.work && s'.polled == s.polled
    decreases |s.pending|
  {
    if s.pending == [] || !s.pending[0].durable {
      CommitWhileEnd(s, _ => Acked, i);
    } else {
      CommitWhileNext(s, _ => Acked, i);
      PassKeeps(CommitStep(s, Acked), i + 1);
    }
  }

  /** The steps of a pass with acknowledged commits. */
  lemma {:induction false} PassSteps(o: Options, position: Offsets, s: State, i: nat) returns (steps: seq<Step>)
    requires s.pc == CheckFront && !s.failed
    ensures CommitWhile(s, _ => Acked, i) == Run(o, position, s, steps) && AllGood(o, steps)
    decreases |s.pending|
  {
    if s.pending == [] || !s.pending[0].durable {
      CommitWhileEnd(s, _ => Acked, i);
      steps := [Check];
      assert steps[1..] == [];
    } else {
      CommitWhileNext(s, _ => Acked, i);
      var rest := PassSteps(o, position, CommitStep(s, Acked), i + 1);
      RunTwo(o, position, s, Check, CommitFront(Acked), rest);
      assert CommitStep(CheckStep(s), Acked) == CommitStep(s, Acked);
      steps := [Check, CommitFront(Acked)] + rest;
    }
  }

  function Undone(s: State): nat {
    2 * |s.pending| + if s.work.NoWork? then 1 else 0
  }

  /** One round of the loop with nothing arriving, once the worker is done: the front is retired or is started. */
  lemma Round(o: Options, position: Offsets, s: State) returns (steps: seq<Step>)
    requires o.hasControls && Inv(o, s) && Alive(s) && s.pc == Collect && !s.work.Running? && s.pending != []
    ensures var s' := Run(o, position, s, steps);
            AllGood(o, steps) && s'.pc == Collect && s'.polled == s.polled && Undone(s') < Undone(s)
  {
    var s1 := CollectStep(s);
    assert s1 == Apply(o, position, s, CollectWork);
    var pass := PassSteps(o, position, s1, 0);
    var s2 := CommitWhile(s1, _ => Acked, 0);
    PassKeeps(s1, 0);
    var n := CommitWhileTakesDurablePrefix(s1, 0);
    var end := [StartWork, Poll(KafkaControl.Nothing)];
    steps := [CollectWork] + (pass + end);
    assert steps[1..] == pass + end;
    RunAppend(o, position, s1, pass, end);
    RunTwo(o, position, s2, StartWork, Poll(KafkaControl.Nothing), []);
    assert end + [] == end && [StartWork, Poll(KafkaControl.Nothing)] + [] == end;
    RoundEnds(o, position, s, s1, s2, n);
  }

  lemma RoundEnds(o: Options, position: Offsets, s: State, s1: State, s2: State, n: nat)
    requires o.hasControls && Inv(o, s) && Alive(s) && s.pc == Collect && !s.work.Running? && s.pending != []
    requires s1 == CollectStep(s) && s2.pc == StartFront && s2.work == s1.work && s2.polled == s1.polled
    requires n <= |s1.pending| && s2.pending == s1.pending[n..] && (n < |s1.pending| ==> !s1.pending[n].durable)
    ensures var s' := Apply(o, position, Apply(o, position, s2, StartWork), Poll(KafkaControl.Nothing));
            s'.pc == Collect && s'.polled == s.polled && Undone(s') < Undone(s)
  {
    if s.work.Finished? {
      assert s1.pending[0].durable && n > 0;
    }
  }

  /** A running loop can always drain its queue: there are good answers under which everything that was polled gets
      committed, in order, with the loop still running. */
  lemma {:induction false} CanDrain(o: Options, position: Offsets, s: State, out: Outcome) returns (steps: seq<Step>)
    requires o.hasControls && Inv(o, s) && Alive(s) && s.pc == Collect && Resolved(o, out)
    ensures var s' := Run(o, position, s, steps);
            AllGood(o, steps) && Alive(s') && s'.pending == [] && s'.polled == s.polled && s'.commits == s.polled
    decreases Undone(s), s.work.Running?
  {
    if s.pending == [] {
      steps := [];
    } else {
      var some: seq<Step>;
      if s.work.Running? {
        some := [WorkerHandles(out)];
        assert some[1..] == [];
        assert Run(o, position, s, some) == Apply(o, position, s, WorkerHandles(out));
      } else {
        some := Round(o, position, s);
      }
      var m := Run(o, position, s, some);
      RunInv(o, position, s, some);
      HealthyNeverHalts(o, position, s, some);
      var rest := CanDrain(o, position, m, out);
      RunAppend(o, position, s, some, rest);
      steps := some + rest;
    }
  }

  // ----- commits reach the broker

  lemma StoredStep(o: Options, position: Offsets, s: State, step: Step, start: Offsets)
    requires s.broker.committed == Advance(start, s.commits)
    ensures var s' := Apply(o, position, s, step); s'.broker.committed == Advance(start, s'.commits)
  {
    if Enabled(o, position, s, step) && step.CommitFront? && step.result != Refused {
      var r := s.pending[0].record;
      FetchedAppend(start, s.commits, [r]);
      assert [r][1..] == [];
    }
  }

  /** In every run the offsets at the broker are those of the records committed on the way, each one past its record. */
  lemma {:induction false} CommitsAreStored(o: Options, position: Offsets, s: State, steps: seq<Step>, start: Offsets)
    requires s.broker.committed == Advance(start, s.commits)
    ensures Run(o, position, s, steps).broker.committed == Advance(start, Run(o, position, s, steps).commits)
    decreases |steps|
  {
    if steps != [] {
      StoredStep(o, position, s, steps[0], start);
      CommitsAreStored(o, position, Apply(o, position, s, steps[0]), steps[1..], start);
    }
  }
}
