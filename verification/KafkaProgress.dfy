/** What the consumption loops do get done: with answers that are good they settle and commit everything that
    was fetched, and the first bad one stops them exactly there. */
module KafkaProgress {
  import opened KafkaBroker
  import opened KafkaConsumer
  import opened KafkaBatch

  // ----- configurations

  /** What Init lets through fits one of the three loops: offsets are committed by hand wherever durability is promised,
      and parallel workers and the control lane exclude each other. */
  lemma AcceptedModes(o: Options)
    requires Accepted(o)
    ensures o.hasDeadLetter || o.workers > 1 || o.hasControls ==> !o.autoCommit
    ensures o.hasControls ==> o.workers == 1 && o.maxBatch >= 2
    ensures 1 <= o.workers <= o.maxBatch <= 1024 && o.workers <= 64
  {
  }

  /** Nothing else is refused. */
  lemma EveryModeAccepted(attempts: int, callback: bool, deadLetter: bool, workers: nat, batch: nat)
    requires 1 <= workers <= 64 && workers <= batch <= 1024
    ensures Accepted(Options(attempts, callback, deadLetter, false, workers, batch, false))
    ensures batch >= 2 ==> Accepted(Options(attempts, callback, deadLetter, false, 1, batch, true))
    ensures Accepted(Options(attempts, callback, false, true, 1, batch, false))
  {
  }

  // ----- one record

  /** Some attempt that is allowed succeeds, or there is no callback to call. */
  ghost predicate Succeeds(o: Options, callback: nat -> Attempt) {
    !o.hasCallback || exists k: nat | 1 <= k && (k == 1 || k <= o.maxAttempts) :: callback(k) == Returned(true)
  }

  lemma SucceedsIsHandled(o: Options, callback: nat -> Attempt)
    ensures Handled(o, callback) <==> Succeeds(o, callback)
  {
    if o.hasCallback {
      HandledExactlyWhen(o, callback);
    }
  }

  /** A record is settled by its handling exactly if the callback succeeds in time or a dead letter is confirmed;
      it is committed only on request; and nothing else about the broker changes. */
  lemma HandleExactly(o: Options, s: Shared, r: Record, commit: bool, out: Outcome)
    ensures var (s', ok) := Handle(o, s, r, commit, out);
            var good := Succeeds(o, out.callback) || (o.hasDeadLetter && out.deadLetterConfirmed);
            && s'.broker.settled == (if good then s.broker.settled + {(r.partition, r.offset)} else s.broker.settled)
            && s'.broker.committed ==
                 (if commit && !o.autoCommit && out.commit != Refused && (good || !o.hasDeadLetter)
                  then s.broker.committed[r.partition := r.offset + 1] else s.broker.committed)
            && (s'.failed <==> s.failed || (o.hasDeadLetter && (!good || (commit && !o.autoCommit && out.commit != Acked))))
            && (s'.running <==> s.running && !(o.hasDeadLetter && (!good || (commit && !o.autoCommit && out.commit != Acked))))
            && (ok <==> !s'.failed && (good || (o.workers <= 1 && !o.hasControls)))
  {
    SucceedsIsHandled(o, out.callback);
  }

  // ----- the one-record loop

  /** Polls that bring nothing bad: no stop, and every record is handled or dead-lettered and its commit acknowledged. */
  predicate Good(o: Options, poll: Poll) {
    match poll
    case Delivered(_, out) => Resolved(o, out) && out.commit == Acked
    case StopRequested => false
    case _ => true
  }

  predicate AllGood(o: Options, script: seq<Poll>) {
    forall i | 0 <= i < |script| :: Good(o, script[i])
  }

  function Keys(rs: seq<Record>): set<(nat, nat)> {
    set r | r in rs :: (r.partition, r.offset)
  }

  /** A loop that meets nothing bad keeps running, settles everything and commits everything it fetched. */
  lemma {:induction false} HealthyLoop(o: Options, s: Shared, script: seq<Poll>)
    requires !o.autoCommit && s.running && !s.failed && AllGood(o, script)
    ensures Loop(o, s, script) ==
              Shared(true, false, Broker(Advance(s.broker.committed, Records(script)), s.broker.settled + Keys(Records(script))))
    decreases |script|
  {
    if script == [] {
      assert s.broker.settled + Keys([]) == s.broker.settled;
    } else {
      var s', rs := Step(o, s, script[0]), Records(script[1..]);
      assert Good(o, script[0]);
      HealthyLoop(o, s', script[1..]);
      if script[0].Delivered? {
        KeysOne(script[0].record, rs);
        assert Records(script)[0] == script[0].record && Records(script)[1..] == rs;
        assert s'.broker == Commit(Settle(s.broker, script[0].record), script[0].record);
        assert s'.broker.settled + Keys(rs) == s.broker.settled + Keys(Records(script));
      } else {
        assert Records(script) == rs;
      }
    }
  }

  lemma KeysOne(r: Record, rs: seq<Record>)
    ensures Keys([r] + rs) == {(r.partition, r.offset)} + Keys(rs)
  {
    assert forall x | x in [r] + rs :: x == r || x in rs;
    assert r in [r] + rs && forall x | x in rs :: x in [r] + rs;
  }

  lemma {:induction false} LoopAppend(o: Options, s: Shared, before: seq<Poll>, after: seq<Poll>)
    ensures Loop(o, s, before + after) == Loop(o, Loop(o, s, before), after)
    decreases |before|
  {
    if before == [] {
      assert before + after == after;
    } else if s.running {
      assert (before + after)[0] == before[0] && (before + after)[1..] == before[1..] + after;
      LoopAppend(o, Step(o, s, before[0]), before[1..], after);
    }
  }

  /** With a dead-letter topic, a record that is neither handled nor dead-lettered, or whose commit is not
      acknowledged, stops the loop for good: everything before it is committed, and it is committed only if the
      broker stored its offset all the same. */
  lemma StopsAtBadRecord(o: Options, s: Shared, before: seq<Poll>, r: Record, out: Outcome, after: seq<Poll>)
    requires o.hasDeadLetter && !o.autoCommit && s.running && !s.failed && AllGood(o, before)
    requires !Good(o, Delivered(r, out))
    ensures var s', committed := Loop(o, s, before + [Delivered(r, out)] + after), Advance(s.broker.committed, Records(before));
            && !s'.running && s'.failed
            && s'.broker.committed ==
                 if Resolved(o, out) && out.commit == LostAck then committed[r.partition := r.offset + 1] else committed
  {
    var m := Loop(o, s, before);
    HealthyLoop(o, s, before);
    LoopAppend(o, s, before, [Delivered(r, out)]);
    assert [Delivered(r, out)][1..] == [];
    assert Loop(o, m, [Delivered(r, out)]) == Loop(o, Step(o, m, Delivered(r, out)), []);
    NothingAfterHalt(o, s, before + [Delivered(r, out)], after);
  }

  // ----- parallel batches

  lemma {:induction false} AcknowledgedPass(s: Shared, batch: seq<Record>, results: nat -> CommitResult, i: nat)
    requires i <= |batch| && forall k | i <= k < |batch| :: results(k) == Acked
    ensures CommitPass(s, batch, results, i) == s.(broker := CommitAll(s.broker, batch[i..]))
    decreases |batch| - i
  {
    if i < |batch| {
      AcknowledgedPass(s.(broker := Commit(s.broker, batch[i])), batch, results, i + 1);
      assert batch[i..][0] == batch[i] && batch[i..][1..] == batch[i + 1..];
    } else {
      assert batch[i..] == [];
    }
  }

  lemma {:induction false} CommitAllAdvances(b: Broker, rs: seq<Record>)
    ensures CommitAll(b, rs) == b.(committed := Advance(b.committed, rs))
    decreases |rs|
  {
    if rs != [] {
      CommitAllAdvances(Commit(b, rs[0]), rs[1..]);
    }
  }

  /** No worker is told that its record failed. */
  predicate AllResolved(o: Options, steps: seq<LaneStep>) {
    forall i | 0 <= i < |steps| && steps[i].Complete? :: Resolved(o, steps[i].outcome)
  }

  predicate Healthy(s: Lanes) {
    s.durable && !s.shared.failed && s.shared.running
  }

  lemma HealthyStep(o: Options, batch: seq<Record>, jobs: seq<seq<nat>>, s: Lanes, step: LaneStep)
    requires Shape(jobs, s) && InBatch(batch, jobs) && Healthy(s) && (step.Complete? ==> Resolved(o, step.outcome))
    ensures Healthy(Apply(o, batch, jobs, s, step))
  {
  }

  lemma {:induction false} HealthyRun(o: Options, batch: seq<Record>, jobs: seq<seq<nat>>, s: Lanes, steps: seq<LaneStep>)
    requires Shape(jobs, s) && InBatch(batch, jobs) && Healthy(s) && AllResolved(o, steps)
    ensures Healthy(Interleave(o, batch, jobs, s, steps))
    decreases |steps|
  {
    if steps != [] {
      HealthyStep(o, batch, jobs, s, steps[0]);
      assert forall i | 0 <= i < |steps[1..]| :: steps[1..][i] == steps[i + 1];
      HealthyRun(o, batch, jobs, Apply(o, batch, jobs, s, steps[0]), steps[1..]);
    }
  }

  /** However the workers interleave: when all records are handled or dead-lettered and all commits acknowledged,
      the whole batch is settled and committed and the consumer goes on. */
  lemma HealthyBatch(o: Options, batch: seq<Record>, jobs: seq<seq<nat>>, s: Shared, steps: seq<LaneStep>,
                     results: nat -> CommitResult)
    requires o.workers > 1 && IsLanes(batch, jobs) && s.running && !s.failed
    requires AllResolved(o, steps) && forall i | 0 <= i < |batch| :: results(i) == Acked
    requires Joined(jobs, Interleave(o, batch, jobs, Start(jobs, s), steps))
    ensures var s' := ProcessBatch(o, batch, jobs, s, steps, results);
            && s'.running && !s'.failed && s'.broker.committed == Advance(s.broker.committed, batch)
            && forall i | 0 <= i < |batch| :: IsSettled(s'.broker, batch[i])
  {
    var end := Interleave(o, batch, jobs, Start(jobs, s), steps);
    HealthyRun(o, batch, jobs, Start(jobs, s), steps);
    BatchAllOrNothing(o, batch, jobs, s, steps, results);
    LanesReach(o, batch, jobs, Start(jobs, s), steps);
    AcknowledgedPass(end.shared, batch, results, 0);
    assert batch[0..] == batch;
    CommitAllAdvances(end.shared.broker, batch);
  }

  lemma {:induction false} InterleaveAppend(o: Options, batch: seq<Record>, jobs: seq<seq<nat>>, s: Lanes,
                                            before: seq<LaneStep>, after: seq<LaneStep>)
    requires Shape(jobs, s) && InBatch(batch, jobs)
    ensures Interleave(o, batch, jobs, s, before + after) == Interleave(o, batch, jobs, Interleave(o, batch, jobs, s, before), after)
    decreases |before|
  {
    if before == [] {
      assert before + after == after;
    } else {
      assert (before + after)[0] == before[0] && (before + after)[1..] == before[1..] + after;
      InterleaveAppend(o, batch, jobs, Apply(o, batch, jobs, s, before[0]), before[1..], after);
    }
  }

  /** Worker l has k records left and holds none; the workers below l are done. */
  predicate Left(jobs: seq<seq<nat>>, s: Lanes, l: nat, k: nat) {
    && Shape(jobs, s) && Healthy(s)
    && (forall m | 0 <= m < |jobs| :: s.phase[m] == Phase.Idle)
    && (forall m | 0 <= m < l && m < |jobs| :: s.next[m] == |jobs[m]|)
    && (l < |jobs| ==> s.next[l] + k == |jobs[l]|)
  }

  /** Worker l takes its next record and handles it well. */
  lemma OneJob(o: Options, batch: seq<Record>, jobs: seq<seq<nat>>, s: Lanes, l: nat, k: nat, out: Outcome)
    requires InBatch(batch, jobs) && l < |jobs| && k > 0 && Left(jobs, s, l, k) && Resolved(o, out)
    ensures Left(jobs, Interleave(o, batch, jobs, s, [Check(l), Complete(l, out)]), l, k - 1)
  {
    var a := Apply(o, batch, jobs, s, Check(l));
    var b := Apply(o, batch, jobs, a, Complete(l, out));
    HealthyStep(o, batch, jobs, s, Check(l));
    HealthyStep(o, batch, jobs, a, Complete(l, out));
    var two := [Check(l), Complete(l, out)];
    assert two[1..] == [Complete(l, out)] && two[1..][1..] == [];
    assert Interleave(o, batch, jobs, s, two) == Interleave(o, batch, jobs, a, two[1..]);
    assert Interleave(o, batch, jobs, a, two[1..]) == Interleave(o, batch, jobs, b, []);
  }

  /** The workers can always finish, if only one after the other. */
  lemma {:induction false} WorkersFinish(o: Options, batch: seq<Record>, jobs: seq<seq<nat>>, s: Lanes, l: nat, k: nat, out: Outcome)
    returns (steps: seq<LaneStep>)
    requires InBatch(batch, jobs) && l <= |jobs| && Left(jobs, s, l, k) && Resolved(o, out)
    ensures Joined(jobs, Interleave(o, batch, jobs, s, steps)) && AllResolved(o, steps)
    decreases |jobs| - l, k
  {
    if l == |jobs| {
      steps := [];
    } else if k == 0 {
      steps := WorkersFinish(o, batch, jobs, s, l + 1, if l + 1 < |jobs| then |jobs[l + 1]| - s.next[l + 1] else 0, out);
    } else {
      var two := [Check(l), Complete(l, out)];
      OneJob(o, batch, jobs, s, l, k, out);
      var rest := WorkersFinish(o, batch, jobs, Interleave(o, batch, jobs, s, two), l, k - 1, out);
      InterleaveAppend(o, batch, jobs, s, two, rest);
      steps := two + rest;
    }
  }

  /** There is a run of the workers that handles the whole batch. */
  lemma BatchCanFinish(o: Options, batch: seq<Record>, jobs: seq<seq<nat>>, s: Shared, out: Outcome) returns (steps: seq<LaneStep>)
    requires IsLanes(batch, jobs) && s.running && !s.failed && Resolved(o, out)
    ensures Joined(jobs, Interleave(o, batch, jobs, Start(jobs, s), steps)) && AllResolved(o, steps)
  {
    steps := WorkersFinish(o, batch, jobs, Start(jobs, s), 0, if |jobs| > 0 then |jobs[0]| else 0, out);
  }

  /** Once a worker has failed no other starts a record. */
  lemma {:induction false} NoStartAfterFailure(o: Options, batch: seq<Record>, jobs: seq<seq<nat>>, s: Lanes, steps: seq<LaneStep>)
    requires Shape(jobs, s) && InBatch(batch, jobs) && s.shared.failed
    ensures var s' := Interleave(o, batch, jobs, s, steps); s'.shared.failed && s'.started == s.started
    decreases |steps|
  {
    if steps != [] {
      NoStartAfterFailure(o, batch, jobs, Apply(o, batch, jobs, s, steps[0]), steps[1..]);
    }
  }
}
