/** The look-ahead loop: one ordinary worker, control records that overtake it, commits in prefix order.
    The main thread, the worker and the stop request interleave freely. */
module KafkaControl {
  import opened KafkaBroker
  import opened KafkaConsumer

  const MAX_PENDING_BYTES: nat := 16 * 1024 * 1024

  datatype Pending = Pending(record: Record, durable: bool)

  /** `Failing`: HandleMessage has set failed_ and not yet cleared running_. */
  datatype Work = NoWork | Running(job: Record) | Failing(job: Record) | Finished(job: Record, ok: bool)

  /** Where the main thread stands: top of the loop, the commit check, between the check and
      commitSync, starting the worker, polling, running a control record, or out of the loop. */
  datatype Pc = Collect | CheckFront | Committing | StartFront | Polling | Inline | Exited

  /** The last four fields are history: every record kept by the loop, the records passed to a
      commitSync that was stored, and the polled indexes run by the worker and run inline. */
  datatype State = State(pc: Pc, running: bool, failed: bool, broker: Broker,
                         pending: seq<Pending>, pendingBytes: int, work: Work,
                         polled: seq<Record>, commits: seq<Record>, ordinary: seq<nat>, inline: seq<nat>)

  datatype Arrival = Nothing | Error | PredicateThrew | Arrived(record: Record, control: bool)

  datatype Step =
    | CollectWork
    | Check
    | CommitFront(result: CommitResult)
    | StartWork
    | Poll(arrival: Arrival)
    | RunControl(outcome: Outcome)
    | WorkerHandles(outcome: Outcome)
    | WorkerHalts
    | StopRequested

  function Begin(broker: Broker): State {
    State(Collect, true, false, broker, [], 0, NoWork, [], [], [], [])
  }

  function HaltAndExit(s: State): State {
    s.(failed := true, running := false, pc := Exited)
  }

  function Overloaded(o: Options, s: State): bool {
    |s.pending| >= o.maxBatch || s.pendingBytes >= MAX_PENDING_BYTES
  }

  /** The broker hands out the next record of each partition. */
  predicate Enabled(o: Options, position: Offsets, s: State, step: Step) {
    match step
    case CollectWork => s.pc == Collect
    case Check => s.pc == CheckFront
    case CommitFront(_) => s.pc == Committing && s.pending != []
    case StartWork => s.pc == StartFront
    case Poll(a) =>
      s.pc == Polling && (a.Arrived? ==> a.record.offset == At(Advance(position, s.polled), a.record.partition))
    case RunControl(_) => s.pc == Inline && s.pending != []
    case WorkerHandles(_) => s.work.Running?
    case WorkerHalts => s.work.Failing?
    case StopRequested => true
  }

  function CollectStep(s: State): State {
    if !s.running then s.(pc := Exited)
    else if s.work.Finished? then
      if !s.work.ok || s.pending == [] then HaltAndExit(s.(work := NoWork))
      else s.(work := NoWork, pending := s.pending[0 := s.pending[0].(durable := true)], pc := CheckFront)
    else s.(pc := CheckFront)
  }

  function CheckStep(s: State): State {
    if s.pending != [] && s.pending[0].durable && !s.failed then s.(pc := Committing)
    else s.(pc := if s.running then StartFront else Exited)
  }

  function CommitStep(s: State, result: CommitResult): State
    requires s.pending != []
  {
    var r := s.pending[0].record;
    var stored := if result == Refused then s else s.(broker := Commit(s.broker, r), commits := s.commits + [r]);
    if result != Acked then HaltAndExit(stored)
    else stored.(pending := s.pending[1..], pendingBytes := s.pendingBytes - |r.value|, pc := CheckFront)
  }

  function StartStep(s: State): State {
    if s.work.NoWork? && s.pending != [] then
      s.(work := Running(s.pending[0].record), pc := Polling,
      ordinary := s.ordinary + [if |s.polled| >= |s.pending| then |s.polled| - |s.pending| else 0])
    else s.(pc := Polling)
  }

  function PollStep(o: Options, s: State, a: Arrival): State {
    if Overloaded(o, s) then s.(pc := Collect)
    else
      match a
      case PredicateThrew => HaltAndExit(s)
      case Arrived(r, control) =>
        s.(pendingBytes := s.pendingBytes + |r.value|, pending := s.pending + [Pending(r, false)],
        polled := s.polled + [r], pc := if control then Inline else Collect)
      case _ => s.(pc := Collect)
  }

  function ControlStep(o: Options, s: State, out: Outcome): State
    requires s.pending != []
  {
    var last := |s.pending| - 1;
    var (shared, ok) := Handle(o, Shared(s.running, s.failed, s.broker), s.pending[last].record, false, out);
    var s' := s.(running := shared.running, failed := shared.failed, broker := shared.broker,
    inline := s.inline + [if s.polled == [] then 0 else |s.polled| - 1]);
    if ok then s'.(pending := s.pending[last := s.pending[last].(durable := true)], pc := Collect)
    else HaltAndExit(s')
  }

  /** HandleMessage on the worker: the flags are set one after the other. */
  function WorkerStep(o: Options, s: State, out: Outcome): State
    requires s.work.Running?
  {
    if !Resolved(o, out) && o.hasDeadLetter then s.(failed := true, work := Failing(s.work.job))
    else
      s.(broker := if Resolved(o, out) then Settle(s.broker, s.work.job) else s.broker,
      work := Finished(s.work.job, Resolved(o, out) && !s.failed))
  }

  function Apply(o: Options, position: Offsets, s: State, step: Step): State {
    if !Enabled(o, position, s, step) then s
    else
      match step
      case CollectWork => CollectStep(s)
      case Check => CheckStep(s)
      case CommitFront(result) => CommitStep(s, result)
      case StartWork => StartStep(s)
      case Poll(a) => PollStep(o, s, a)
      case RunControl(out) => ControlStep(o, s, out)
      case WorkerHandles(out) => WorkerStep(o, s, out)
      case WorkerHalts => s.(running := false, work := Finished(s.work.job, false))
      case StopRequested => s.(running := false)
  }

  /** Any interleaving; a step that is not enabled changes nothing. */
  function Run(o: Options, position: Offsets, s: State, steps: seq<Step>): State
    decreases |steps|
  {
    if steps == [] then s else Run(o, position, Apply(o, position, s, steps[0]), steps[1..])
  }

  // ----- invariants

  function Bytes(pending: seq<Pending>): nat {
    if pending == [] then 0 else |pending[0].record.value| + Bytes(pending[1..])
  }

  lemma {:induction false} BytesAppend(xs: seq<Pending>, x: Pending)
    ensures Bytes(xs + [x]) == Bytes(xs) + |x.record.value|
  {
    if xs == [] {
      assert xs + [x] == [x] && [x][1..] == [];
    } else {
      assert (xs + [x])[1..] == xs[1..] + [x];
      BytesAppend(xs[1..], x);
    }
  }

  lemma {:induction false} BytesMark(xs: seq<Pending>, i: nat)
    requires i < |xs|
    ensures Bytes(xs[i := xs[i].(durable := true)]) == Bytes(xs)
  {
    var ys := xs[i := xs[i].(durable := true)];
    if i > 0 {
      assert ys[1..] == xs[1..][i - 1 := xs[i].(durable := true)];
      BytesMark(xs[1..], i - 1);
    } else {
      assert ys[1..] == xs[1..];
    }
  }

  /** How many polled records have left the queue. */
  function Retired(s: State): int {
    |s.polled| - |s.pending|
  }

  predicate QueueInv(o: Options, s: State) {
    && 0 <= Retired(s) && |s.pending| <= o.maxBatch
    && (forall i | 0 <= i < |s.pending| :: s.pending[i].record == s.polled[Retired(s) + i])
    && s.pendingBytes == Bytes(s.pending)
    && s.commits <= s.polled
    && (|s.commits| == Retired(s) || (s.pc == Exited && s.pending != [] && |s.commits| == Retired(s) + 1))
  }

  predicate WorkInv(s: State) {
    && (!s.work.NoWork? ==> s.pending != [] && !s.pending[0].durable && s.work.job == s.pending[0].record)
    && (s.failed && s.pc != Exited ==> s.work.Failing? || (s.work.Finished? && !s.work.ok))
    && (s.work.Failing? ==> s.failed)
    && (s.pc == Committing ==> s.pending != [] && s.pending[0].durable)
    && (s.pc == Inline ==> s.pending != [] && !s.pending[|s.pending| - 1].durable)
    && (s.pc == Inline && |s.pending| == 1 ==> s.work.NoWork?)
    && (s.pc == StartFront && s.work.NoWork? && s.pending != [] ==> !s.pending[0].durable)
  }

  predicate StrictlyIncreasing(xs: seq<nat>) {
    forall i, j | 0 <= i < j < |xs| :: xs[i] < xs[j]
  }

  predicate RunsInv(s: State)
    requires 0 <= Retired(s)
  {
    && StrictlyIncreasing(s.ordinary) && StrictlyIncreasing(s.inline)
    && (forall x | x in s.ordinary :: x < |s.polled| && x <= Retired(s) && x !in s.inline)
    && (forall x | x in s.inline :: x < |s.polled|)
    && (s.pc == Inline ==> forall x | x in s.ordinary :: x < |s.polled| - 1)
    && (s.pc == Inline ==> forall x | x in s.inline :: x < |s.polled| - 1)
    && (s.pc != Exited ==>
          && (forall x | x in s.inline && x >= Retired(s) :: s.pending[x - Retired(s)].durable)
          && (s.pending != [] && Retired(s) in s.ordinary ==> !s.work.NoWork? || s.pending[0].durable))
  }

  predicate SettledInv(s: State)
    requires 0 <= Retired(s)
  {
    && (forall i | 0 <= i < |s.pending| && s.pending[i].durable :: IsSettled(s.broker, s.pending[i].record))
    && (forall i | 0 <= i < |s.commits| :: IsSettled(s.broker, s.commits[i]))
    && (s.work.Finished? && s.work.ok ==> IsSettled(s.broker, s.work.job))
  }

  predicate Inv(o: Options, s: State) {
    QueueInv(o, s) && WorkInv(s) && RunsInv(s) && SettledInv(s)
  }

  // Each step keeps each of the four parts; the parts are proved one by one.

  lemma CollectQueue(o: Options, s: State)
    requires QueueInv(o, s) && s.pc == Collect
    ensures QueueInv(o, CollectStep(s))
  {
    if s.pending != [] {
      BytesMark(s.pending, 0);
    }
  }

  lemma CollectWorker(o: Options, s: State)
    requires QueueInv(o, s) && WorkInv(s) && s.pc == Collect
    ensures WorkInv(CollectStep(s))
  {
  }

  lemma CollectRuns(o: Options, s: State)
    requires QueueInv(o, s) && WorkInv(s) && RunsInv(s) && s.pc == Collect
    ensures Retired(CollectStep(s)) == Retired(s) && RunsInv(CollectStep(s))
  {
    var s' := CollectStep(s);
    assert |s'.pending| == |s.pending|;
    assert forall i | 0 <= i < |s.pending| && s.pending[i].durable :: s'.pending[i].durable;
  }

  lemma CollectSettled(o: Options, s: State)
    requires QueueInv(o, s) && WorkInv(s) && SettledInv(s) && s.pc == Collect
    ensures Retired(CollectStep(s)) == Retired(s) && SettledInv(CollectStep(s))
  {
    var s' := CollectStep(s);
    assert forall i | 0 < i < |s.pending| :: s'.pending[i] == s.pending[i];
  }

  lemma CollectInv(o: Options, s: State)
    requires Inv(o, s) && s.pc == Collect
    ensures Inv(o, CollectStep(s))
  {
    CollectQueue(o, s);
    CollectWorker(o, s);
    CollectRuns(o, s);
    CollectSettled(o, s);
  }

  lemma CheckWorker(s: State)
    requires WorkInv(s) && s.pc == CheckFront
    ensures WorkInv(CheckStep(s))
  {
  }

  lemma CheckRuns(s: State)
    requires 0 <= Retired(s) && RunsInv(s) && s.pc == CheckFront
    ensures RunsInv(CheckStep(s))
  {
  }

  lemma CheckInv(o: Options, s: State)
    requires Inv(o, s) && s.pc == CheckFront
    ensures Inv(o, CheckStep(s))
  {
    CheckWorker(s);
    CheckRuns(s);
  }

  lemma NextIsPrefix(commits: seq<Record>, polled: seq<Record>)
    requires commits <= polled && |commits| < |polled|
    ensures commits + [polled[|commits|]] <= polled
  {
  }

  /** The front leaves the queue, committed. */
  lemma QueuePopped(o: Options, s: State, s': State)
    requires QueueInv(o, s) && s.pending != [] && |s.commits| == Retired(s)
    requires s'.pending == s.pending[1..] && s'.pendingBytes == s.pendingBytes - |s.pending[0].record.value|
    requires s'.polled == s.polled && s'.commits == s.commits + [s.pending[0].record]
    ensures QueueInv(o, s')
  {
    assert s.pending[0].record == s.polled[Retired(s) + 0];
    NextIsPrefix(s.commits, s.polled);
  }

  /** The loop ends with the front still in the queue, committed or not. */
  lemma QueueLeft(o: Options, s: State, s': State)
    requires QueueInv(o, s) && s.pending != [] && |s.commits| == Retired(s) && s'.pc == Exited
    requires s'.pending == s.pending && s'.pendingBytes == s.pendingBytes && s'.polled == s.polled
    requires s'.commits == s.commits || s'.commits == s.commits + [s.pending[0].record]
    ensures QueueInv(o, s')
  {
    assert s.pending[0].record == s.polled[Retired(s) + 0];
    NextIsPrefix(s.commits, s.polled);
  }

  /** The last record of the queue may become durable. */
  lemma QueueMarked(o: Options, s: State, s': State)
    requires QueueInv(o, s) && s.pending != [] && |s.commits| == Retired(s)
    requires s'.pendingBytes == s.pendingBytes && s'.polled == s.polled && s'.commits == s.commits
    requires var last := |s.pending| - 1;
             s'.pending == s.pending || s'.pending == s.pending[last := s.pending[last].(durable := true)]
    ensures QueueInv(o, s')
  {
    BytesMark(s.pending, |s.pending| - 1);
  }

  lemma CommitQueue(o: Options, s: State, result: CommitResult)
    requires QueueInv(o, s) && s.pc == Committing && s.pending != []
    ensures QueueInv(o, CommitStep(s, result))
  {
    if result == Acked {
      QueuePopped(o, s, CommitStep(s, result));
    } else {
      QueueLeft(o, s, CommitStep(s, result));
    }
  }

  lemma CommitWorker(s: State, result: CommitResult)
    requires WorkInv(s) && s.pc == Committing
    ensures WorkInv(CommitStep(s, result))
  {
  }

  lemma CommitRuns(s: State, result: CommitResult)
    requires 0 <= Retired(s) && RunsInv(s) && s.pc == Committing && s.pending != []
    ensures 0 <= Retired(CommitStep(s, result)) && RunsInv(CommitStep(s, result))
  {
    var s' := CommitStep(s, result);
    if result == Acked {
      forall x | x in s.inline && x >= Retired(s') ensures s'.pending[x - Retired(s')].durable {
        assert s'.pending[x - Retired(s')] == s.pending[x - Retired(s)];
      }
    }
  }

  lemma CommitSettled(s: State, result: CommitResult)
    requires 0 <= Retired(s) && SettledInv(s) && s.pending != [] && s.pending[0].durable
    ensures 0 <= Retired(CommitStep(s, result)) && SettledInv(CommitStep(s, result))
  {
    var s' := CommitStep(s, result);
    assert result == Acked ==> forall i | 0 <= i < |s'.pending| :: s'.pending[i] == s.pending[i + 1];
  }

  lemma CommitInv(o: Options, s: State, result: CommitResult)
    requires Inv(o, s) && s.pc == Committing
    ensures Inv(o, CommitStep(s, result))
  {
    CommitQueue(o, s, result);
    CommitWorker(s, result);
    CommitRuns(s, result);
    CommitSettled(s, result);
  }

  lemma AppendIncreasing(xs: seq<nat>, x: nat)
    requires StrictlyIncreasing(xs) && forall y | y in xs :: y < x
    ensures StrictlyIncreasing(xs + [x])
  {
    assert forall i | 0 <= i < |xs| :: xs[i] in xs;
  }

  lemma StartRuns(s: State)
    requires 0 <= Retired(s) && WorkInv(s) && RunsInv(s) && s.pc == StartFront
    ensures RunsInv(StartStep(s))
  {
    if s.work.NoWork? && s.pending != [] {
      assert Retired(s) !in s.ordinary;
      AppendIncreasing(s.ordinary, Retired(s));
    }
  }

  lemma StartWorker(s: State)
    requires WorkInv(s) && s.pc == StartFront
    ensures WorkInv(StartStep(s))
  {
  }

  lemma StartInv(o: Options, s: State)
    requires Inv(o, s) && s.pc == StartFront
    ensures Inv(o, StartStep(s))
  {
    StartRuns(s);
    StartWorker(s);
  }

  lemma PollHalts(o: Options, s: State, a: Arrival)
    requires Inv(o, s) && s.pc == Polling && (Overloaded(o, s) || !a.Arrived?)
    ensures Inv(o, PollStep(o, s, a))
  {
    SamePartsInv(o, s, PollStep(o, s, a));
  }

  /** A step that changes only the flags and the place of the main thread, towards the top of the loop or out
      of it. */
  lemma SamePartsInv(o: Options, s: State, s': State)
    requires Inv(o, s) && s.pc == Polling && (s'.pc == Collect || s'.pc == Exited)
    requires s'.pending == s.pending && s'.pendingBytes == s.pendingBytes && s'.polled == s.polled && s'.commits == s.commits
    requires s'.work == s.work && s'.broker == s.broker && s'.ordinary == s.ordinary && s'.inline == s.inline
    requires s'.failed == s.failed || (s'.failed && s'.pc == Exited)
    ensures Inv(o, s')
  {
  }

  lemma PollInv(o: Options, s: State, a: Arrival)
    requires Inv(o, s) && s.pc == Polling
    ensures Inv(o, PollStep(o, s, a))
  {
    if a.Arrived? && !Overloaded(o, s) {
      PollQueue(o, s, a);
      PollWorker(o, s, a);
      PollRuns(o, s, a);
      PollSettled(o, s, a);
    } else {
      PollHalts(o, s, a);
    }
  }

  lemma PollQueue(o: Options, s: State, a: Arrival)
    requires QueueInv(o, s) && s.pc == Polling && a.Arrived? && !Overloaded(o, s)
    ensures QueueInv(o, PollStep(o, s, a)) && Retired(PollStep(o, s, a)) == Retired(s)
  {
    BytesAppend(s.pending, Pending(a.record, false));
    assert s.commits <= s.polled <= PollStep(o, s, a).polled;
  }

  lemma PollWorker(o: Options, s: State, a: Arrival)
    requires WorkInv(s) && s.pc == Polling && a.Arrived? && !Overloaded(o, s)
    ensures WorkInv(PollStep(o, s, a))
  {
  }

  lemma PollRuns(o: Options, s: State, a: Arrival)
    requires 0 <= Retired(s) && RunsInv(s) && s.pc == Polling && a.Arrived? && !Overloaded(o, s)
    ensures Retired(PollStep(o, s, a)) == Retired(s) && RunsInv(PollStep(o, s, a))
  {
    var s' := PollStep(o, s, a);
    forall x | x in s.inline && x >= Retired(s) ensures s'.pending[x - Retired(s)].durable {
      assert s.pending[x - Retired(s)].durable;
    }
  }

  lemma PollSettled(o: Options, s: State, a: Arrival)
    requires 0 <= Retired(s) && SettledInv(s) && s.pc == Polling && a.Arrived? && !Overloaded(o, s)
    ensures Retired(PollStep(o, s, a)) == Retired(s) && SettledInv(PollStep(o, s, a))
  {
  }

  lemma ControlQueue(o: Options, s: State, out: Outcome)
    requires QueueInv(o, s) && s.pc == Inline && s.pending != []
    ensures QueueInv(o, ControlStep(o, s, out))
  {
    QueueMarked(o, s, ControlStep(o, s, out));
  }

  lemma ControlWorker(o: Options, s: State, out: Outcome)
    requires o.hasControls && WorkInv(s) && s.pc == Inline
    ensures WorkInv(ControlStep(o, s, out))
  {
  }

  lemma ControlInv(o: Options, s: State, out: Outcome)
    requires o.hasControls && Inv(o, s) && s.pc == Inline
    ensures Inv(o, ControlStep(o, s, out))
  {
    ControlQueue(o, s, out);
    ControlWorker(o, s, out);
    ControlRuns(o, s, out);
    ControlSettled(o, s, out);
  }

  lemma ControlRuns(o: Options, s: State, out: Outcome)
    requires QueueInv(o, s) && WorkInv(s) && RunsInv(s) && s.pc == Inline
    ensures RunsInv(ControlStep(o, s, out))
  {
    InlineRuns(s, ControlStep(o, s, out));
  }

  /** What matters of a control record's handling for the order of runs. */
  lemma InlineRuns(s: State, s': State)
    requires 0 <= Retired(s) && WorkInv(s) && RunsInv(s) && s.pc == Inline
    requires s'.ordinary == s.ordinary && s'.inline == s.inline + [|s.polled| - 1] && s'.polled == s.polled && s'.work == s.work
    requires s'.pc == Exited || s'.pc == Collect
    requires |s'.pending| == |s.pending|
    requires s'.pc == Collect ==>
               s'.pending == s.pending[|s.pending| - 1 := s.pending[|s.pending| - 1].(durable := true)]
    ensures RunsInv(s')
  {
    AppendIncreasing(s.inline, |s.polled| - 1);
    if s'.pc == Collect {
      forall x | x in s'.inline && x >= Retired(s') ensures s'.pending[x - Retired(s')].durable {
        assert x != |s.polled| - 1 ==> x in s.inline && s.pending[x - Retired(s)].durable;
      }
    }
  }

  lemma ControlSettled(o: Options, s: State, out: Outcome)
    requires o.hasControls && 0 <= Retired(s) && SettledInv(s) && s.pending != []
    ensures SettledInv(ControlStep(o, s, out))
  {
  }

  lemma WorkerSettled(o: Options, s: State, out: Outcome)
    requires 0 <= Retired(s) && SettledInv(s) && s.work.Running?
    ensures SettledInv(WorkerStep(o, s, out))
  {
  }

  lemma WorkerWorker(o: Options, s: State, out: Outcome)
    requires WorkInv(s) && s.work.Running?
    ensures WorkInv(WorkerStep(o, s, out))
  {
  }

  lemma WorkerRuns(o: Options, s: State, out: Outcome)
    requires 0 <= Retired(s) && RunsInv(s) && s.work.Running?
    ensures RunsInv(WorkerStep(o, s, out))
  {
  }

  lemma WorkerInv(o: Options, s: State, out: Outcome)
    requires Inv(o, s) && s.work.Running?
    ensures Inv(o, WorkerStep(o, s, out))
  {
    WorkerWorker(o, s, out);
    WorkerRuns(o, s, out);
    WorkerSettled(o, s, out);
  }

  lemma WorkerHaltsInv(o: Options, s: State)
    requires Inv(o, s) && s.work.Failing?
    ensures Inv(o, s.(running := false, work := Finished(s.work.job, false)))
  {
  }

  lemma StopInv(o: Options, s: State)
    requires Inv(o, s)
    ensures Inv(o, s.(running := false))
  {
  }

  /** What every interleaving of the control loop keeps. */
  lemma {:induction false} RunInv(o: Options, position: Offsets, s: State, steps: seq<Step>)
    requires o.hasControls && Inv(o, s)
    ensures Inv(o, Run(o, position, s, steps))
    decreases |steps|
  {
    if steps != [] {
      ApplyInv(o, position, s, steps[0]);
      RunInv(o, position, Apply(o, position, s, steps[0]), steps[1..]);
    }
  }

  lemma ApplyInv(o: Options, position: Offsets, s: State, step: Step)
    requires o.hasControls && Inv(o, s)
    ensures Inv(o, Apply(o, position, s, step))
  {
    if Enabled(o, position, s, step) {
      match step
      case CollectWork => CollectInv(o, s);
      case Check => CheckInv(o, s);
      case CommitFront(result) => CommitInv(o, s, result);
      case StartWork => StartInv(o, s);
      case Poll(a) => PollInv(o, s, a);
      case RunControl(out) => ControlInv(o, s, out);
      case WorkerHandles(out) => WorkerInv(o, s, out);
      case WorkerHalts => WorkerHaltsInv(o, s);
      case StopRequested => StopInv(o, s);
    }
  }

  lemma BeginInv(o: Options, broker: Broker)
    ensures Inv(o, Begin(broker))
  {
  }

  // ----- results

  /** In every state of every interleaving: what was committed is a prefix of what was polled and every
      committed record was handled or dead-lettered; the worker runs the front, which is not yet durable;
      ordinary records ran in poll order and no record ran twice; the byte count is exact. */
  lemma ControlSafety(o: Options, position: Offsets, broker: Broker, steps: seq<Step>)
    requires o.hasControls
    ensures var s := Run(o, position, Begin(broker), steps);
            && s.commits <= s.polled && (forall i | 0 <= i < |s.commits| :: IsSettled(s.broker, s.commits[i]))
            && (!s.work.NoWork? ==> s.pending != [] && !s.pending[0].durable && s.work.job == s.pending[0].record)
            && StrictlyIncreasing(s.ordinary) && StrictlyIncreasing(s.inline)
            && (forall x | x in s.ordinary :: x !in s.inline)
            && s.pendingBytes == Bytes(s.pending) && |s.pending| <= o.maxBatch
  {
    BeginInv(o, broker);
    RunInv(o, position, Begin(broker), steps);
  }

  /** The worker starts a record only when everything polled before it is committed. */
  lemma StartsBehindCommittedPrefix(o: Options, position: Offsets, broker: Broker, steps: seq<Step>)
    requires o.hasControls
    ensures var s := Run(o, position, Begin(broker), steps);
            var s' := Apply(o, position, s, StartWork);
            |s'.ordinary| > |s.ordinary| ==>
              var x := s'.ordinary[|s.ordinary|];
              x < |s.polled| && s.commits == s.polled[..x] && s'.work == Running(s.polled[x]) && x !in s.ordinary + s.inline
  {
    BeginInv(o, broker);
    RunInv(o, position, Begin(broker), steps);
    var s := Run(o, position, Begin(broker), steps);
    if |Apply(o, position, s, StartWork).ordinary| > |s.ordinary| {
      assert s.pending[0].record == s.polled[Retired(s) + 0];
    }
  }

  // ----- which records overtake

  /** Whether the interrupt predicate held for the record that a step has added to what was polled. */
  function FlagOf(o: Options, position: Offsets, s: State, step: Step): seq<bool> {
    if step.Poll? && step.arrival.Arrived? && |Apply(o, position, s, step).polled| > |s.polled| then [step.arrival.control]
    else []
  }

  /** The answers of the interrupt predicate for everything polled on the way. */
  function Flags(o: Options, position: Offsets, s: State, steps: seq<Step>): seq<bool>
    decreases |steps|
  {
    if steps == [] then []
    else FlagOf(o, position, s, steps[0]) + Flags(o, position, Apply(o, position, s, steps[0]), steps[1..])
  }

  /** Control records are the ones handled inline, and the worker gets the others. Only the control record that
      has just been polled may still be waiting for its turn. */
  predicate ByFlag(s: State, flags: seq<bool>) {
    && |flags| == |s.polled|
    && (forall x | x in s.inline :: x < |flags| && flags[x])
    && (forall x | x in s.ordinary :: x < |flags| && !flags[x])
    && (s.pc == Inline ==> flags != [] && flags[|flags| - 1])
    && (forall x: nat | x < |flags| && flags[x] :: x in s.inline || (s.pc == Inline && x == |flags| - 1))
  }

  lemma ByFlagSame(s: State, s': State, flags: seq<bool>)
    requires ByFlag(s, flags) && s.pc != Inline && s'.pc != Inline
    requires s'.polled == s.polled && s'.inline == s.inline && s'.ordinary == s.ordinary
    ensures ByFlag(s', flags)
  {
  }

  lemma ByFlagStart(o: Options, s: State, flags: seq<bool>)
    requires Inv(o, s) && ByFlag(s, flags) && s.pc == StartFront
    ensures ByFlag(StartStep(s), flags)
  {
    if s.work.NoWork? && s.pending != [] {
      var x := Retired(s);
      assert x !in s.inline;
      assert !flags[x];
    }
  }

  lemma ByFlagPoll(o: Options, position: Offsets, s: State, a: Arrival, flags: seq<bool>)
    requires ByFlag(s, flags) && Enabled(o, position, s, Poll(a))
    ensures ByFlag(Apply(o, position, s, Poll(a)), flags + FlagOf(o, position, s, Poll(a)))
  {
    var s', more := Apply(o, position, s, Poll(a)), FlagOf(o, position, s, Poll(a));
    assert flags + [] == flags;
    forall x: nat | x < |flags + more| && (flags + more)[x]
      ensures x in s'.inline || (s'.pc == Inline && x == |flags + more| - 1)
    {
      assert x < |flags| ==> flags[x];
    }
  }

  lemma ByFlagControl(o: Options, s: State, out: Outcome, flags: seq<bool>)
    requires Inv(o, s) && ByFlag(s, flags) && s.pc == Inline
    ensures ByFlag(ControlStep(o, s, out), flags)
  {
    var s' := ControlStep(o, s, out);
    assert s'.inline == s.inline + [|flags| - 1] && s'.pc != Inline;
    assert (s.inline + [|flags| - 1])[|s.inline|] == |flags| - 1;
  }

  lemma ByFlagStep(o: Options, position: Offsets, s: State, step: Step, flags: seq<bool>)
    requires o.hasControls && Inv(o, s) && ByFlag(s, flags)
    ensures ByFlag(Apply(o, position, s, step), flags + FlagOf(o, position, s, step))
  {
    assert flags + [] == flags;
    if Enabled(o, position, s, step) {
      var s' := Apply(o, position, s, step);
      match step
      case Poll(a) => ByFlagPoll(o, position, s, a, flags);
      case RunControl(out) => ByFlagControl(o, s, out, flags);
      case StartWork => ByFlagStart(o, s, flags);
      case CollectWork => ByFlagSame(s, s', flags);
      case Check => ByFlagSame(s, s', flags);
      case CommitFront(_) => ByFlagSame(s, s', flags);
      case _ => assert s'.pc == s.pc;
    }
  }

  lemma {:induction false} ByFlagRun(o: Options, position: Offsets, s: State, steps: seq<Step>, flags: seq<bool>)
    requires o.hasControls && Inv(o, s) && ByFlag(s, flags)
    ensures ByFlag(Run(o, position, s, steps), flags + Flags(o, position, s, steps))
    decreases |steps|
  {
    if steps == [] {
      assert flags + [] == flags;
    } else {
      var s', more := Apply(o, position, s, steps[0]), FlagOf(o, position, s, steps[0]);
      ApplyInv(o, position, s, steps[0]);
      ByFlagStep(o, position, s, steps[0], flags);
      ByFlagRun(o, position, s', steps[1..], flags + more);
      Regroup(flags, more, Flags(o, position, s', steps[1..]));
    }
  }

  lemma Regroup(xs: seq<bool>, ys: seq<bool>, zs: seq<bool>)
    ensures xs + ys + zs == xs + (ys + zs)
  {
  }

  /** In every run: the records handled inline, ahead of the queue, are exactly those for which the interrupt
      predicate holds, but for one that has just been polled and is next; the worker never gets one. */
  lemma OnlyControlsOvertake(o: Options, position: Offsets, broker: Broker, steps: seq<Step>)
    requires o.hasControls
    ensures var s, flags := Run(o, position, Begin(broker), steps), Flags(o, position, Begin(broker), steps);
            && |flags| == |s.polled|
            && (forall x | x in s.inline :: x < |flags| && flags[x])
            && (forall x | x in s.ordinary :: x < |flags| && !flags[x])
            && (forall x: nat | x < |flags| && flags[x] :: x in s.inline || (s.pc == Inline && x == |flags| - 1))
  {
    BeginInv(o, broker);
    ByFlagRun(o, position, Begin(broker), steps, []);
    assert [] + Flags(o, position, Begin(broker), steps) == Flags(o, position, Begin(broker), steps);
  }

  /** Once failed_ is set, by either thread, no later step of any interleaving commits anything. */
  lemma {:induction false} HaltedNeverCommits(o: Options, position: Offsets, s: State, steps: seq<Step>)
    requires o.hasControls && Inv(o, s) && s.failed
    ensures var s' := Run(o, position, s, steps);
            s'.failed && s'.commits == s.commits && s'.broker.committed == s.broker.committed
    decreases |steps|
  {
    if steps != [] {
      ApplyInv(o, position, s, steps[0]);
      HaltedStep(o, position, s, steps[0]);
      HaltedNeverCommits(o, position, Apply(o, position, s, steps[0]), steps[1..]);
    }
  }

  lemma HaltedStep(o: Options, position: Offsets, s: State, step: Step)
    requires WorkInv(s) && s.failed
    ensures var s' := Apply(o, position, s, step);
            s'.failed && s'.commits == s.commits && s'.broker.committed == s.broker.committed
  {
    assert s.pc != Committing;
  }

  // ----- refinement

  ghost predicate PrefixInv(position: Offsets, s: State) {
    && Fetched(position, s.polled)
    && SettledUpTo(s.broker, Advance(position, s.commits))
    && forall p: nat :: At(s.broker.committed, p) <= At(Advance(position, s.commits), p)
  }

  /** The front that is about to be committed is settled, and next in the order of polling. */
  predicate FrontReady(s: State) {
    s.pending != [] && IsSettled(s.broker, s.pending[0].record) && s.commits + [s.pending[0].record] <= s.polled
  }

  lemma CommittingFront(o: Options, s: State)
    requires Inv(o, s) && s.pc == Committing
    ensures FrontReady(s)
  {
    assert s.pending[0].record == s.polled[Retired(s) + 0];
    NextIsPrefix(s.commits, s.polled);
  }

  lemma CommitReaches(position: Offsets, s: State, result: CommitResult)
    requires FrontReady(s) && PrefixInv(position, s)
    ensures Reaches(s.broker, CommitStep(s, result).broker) && PrefixInv(position, CommitStep(s, result))
  {
    ReachesRefl(s.broker);
    if result != Refused {
      var r := s.pending[0].record;
      CommitKeepsPrefix(position, s, r);
      SamePrefix(position, Committed(s, r), CommitStep(s, result));
    }
  }

  function Committed(s: State, r: Record): State {
    s.(broker := Commit(s.broker, r), commits := s.commits + [r])
  }

  lemma SamePrefix(position: Offsets, s: State, s': State)
    requires PrefixInv(position, s) && s'.polled == s.polled && s'.commits == s.commits && s'.broker == s.broker
    ensures PrefixInv(position, s')
  {
  }

  lemma CommitKeepsPrefix(position: Offsets, s: State, r: Record)
    requires PrefixInv(position, s) && s.commits + [r] <= s.polled && IsSettled(s.broker, r)
    ensures Reaches(s.broker, Commit(s.broker, r)) && PrefixInv(position, Committed(s, r))
  {
    var n, at := |s.commits|, Advance(position, s.commits);
    assert s.polled == s.commits + ([r] + s.polled[n + 1..]);
    FetchedAppend(position, s.commits, [r] + s.polled[n + 1..]);
    FetchedAppend(position, s.commits, [r]);
    FrontCommit(s.broker, at, r);
    AdvanceOne(at, r);
  }

  lemma AdvanceOne(at: Offsets, r: Record)
    ensures Advance(at, [r]) == at[r.partition := r.offset + 1]
  {
    assert [r][1..] == [];
  }

  lemma FrontCommit(b: Broker, at: Offsets, r: Record)
    requires SettledUpTo(b, at) && (forall p: nat :: At(b.committed, p) <= At(at, p))
    requires r.offset == At(at, r.partition) && IsSettled(b, r)
    ensures Reaches(b, Commit(b, r))
    ensures SettledUpTo(Commit(b, r), at[r.partition := r.offset + 1])
    ensures forall p: nat :: At(Commit(b, r).committed, p) <= At(at[r.partition := r.offset + 1], p)
  {
    assert CommitAll(b, [r]) == Commit(b, r) by {
      assert [r][1..] == [];
    }
    assert Fetched(at, [r]);
    assert Advance(at, [r]) == at[r.partition := r.offset + 1] by {
      assert [r][1..] == [];
    }
    CommitFetched(b, at, [r]);
  }

  lemma SettleReaches(position: Offsets, s: State, s': State, r: Record)
    requires PrefixInv(position, s)
    requires s'.polled == s.polled && s'.commits == s.commits
    requires s'.broker == s.broker || s'.broker == Settle(s.broker, r)
    ensures Reaches(s.broker, s'.broker) && PrefixInv(position, s')
  {
    ReachesRefl(s.broker);
    ReachesSettle(s.broker, r);
    var at := Advance(position, s.commits);
    forall p: nat ensures SettledBelow(s'.broker, p, At(at, p)) {
      assert SettledBelow(s.broker, p, At(at, p));
    }
  }

  lemma SameReaches(position: Offsets, s: State, s': State)
    requires PrefixInv(position, s)
    requires s'.polled == s.polled && s'.commits == s.commits && s'.broker == s.broker
    ensures Reaches(s.broker, s'.broker) && PrefixInv(position, s')
  {
    ReachesRefl(s.broker);
  }

  lemma PollReaches(o: Options, position: Offsets, s: State, a: Arrival)
    requires PrefixInv(position, s) && Enabled(o, position, s, Poll(a))
    ensures Reaches(s.broker, PollStep(o, s, a).broker) && PrefixInv(position, PollStep(o, s, a))
  {
    ReachesRefl(s.broker);
    if a.Arrived? {
      FetchedAppend(position, s.polled, [a.record]);
    }
  }

  lemma StepReaches(o: Options, position: Offsets, s: State, step: Step)
    requires o.hasControls && Inv(o, s) && PrefixInv(position, s)
    ensures var s' := Apply(o, position, s, step);
            Reaches(s.broker, s'.broker) && PrefixInv(position, s')
  {
    var s' := Apply(o, position, s, step);
    if !Enabled(o, position, s, step) {
      ReachesRefl(s.broker);
    } else {
      match step
      case CommitFront(result) =>
        CommittingFront(o, s);
        CommitReaches(position, s, result);
      case RunControl(_) => SettleReaches(position, s, s', s.pending[|s.pending| - 1].record);
      case WorkerHandles(_) => SettleReaches(position, s, s', s.work.job);
      case Poll(a) => PollReaches(o, position, s, a);
      case CollectWork => SameReaches(position, s, s');
      case Check => SameReaches(position, s, s');
      case StartWork => SameReaches(position, s, s');
      case WorkerHalts => SameReaches(position, s, s');
      case StopRequested => SameReaches(position, s, s');
    }
  }

  /** The control loop implements the abstract consumer under every interleaving. */
  lemma {:induction false} ControlRefines(o: Options, position: Offsets, s: State, steps: seq<Step>)
    requires o.hasControls && Inv(o, s) && PrefixInv(position, s)
    ensures Reaches(s.broker, Run(o, position, s, steps).broker)
    decreases |steps|
  {
    if steps == [] {
      ReachesRefl(s.broker);
    } else {
      var m := Apply(o, position, s, steps[0]);
      StepReaches(o, position, s, steps[0]);
      ApplyInv(o, position, s, steps[0]);
      ControlRefines(o, position, m, steps[1..]);
      ReachesTrans(s.broker, m.broker, Run(o, position, s, steps).broker);
    }
  }

  // ----- the main thread in the form of the source

  /** The inner commit loop: the i-th commitSync of the pass is answered by `results(i)`. */
  function CommitWhile(s: State, results: nat -> CommitResult, i: nat): State
    decreases |s.pending|
  {
    if s.pending == [] || !s.pending[0].durable || s.failed then CheckStep(s)
    else if results(i) != Acked then CommitStep(CheckStep(s), results(i))
    else CommitWhile(CommitStep(CheckStep(s), Acked), results, i + 1)
  }

  lemma RunTwo(o: Options, position: Offsets, s: State, a: Step, b: Step, rest: seq<Step>)
    ensures Run(o, position, s, [a, b] + rest) == Run(o, position, Apply(o, position, Apply(o, position, s, a), b), rest)
  {
    var steps := [a, b] + rest;
    assert steps[1..] == [b] + rest && ([b] + rest)[1..] == rest;
  }

  /** The inner loop is a run of the step system. */
  lemma {:induction false} CommitWhileRuns(o: Options, position: Offsets, s: State, results: nat -> CommitResult, i: nat)
    returns (steps: seq<Step>)
    requires s.pc == CheckFront
    ensures CommitWhile(s, results, i) == Run(o, position, s, steps)
    decreases |s.pending|
  {
    if s.pending == [] || !s.pending[0].durable || s.failed {
      steps := [Check];
      assert steps[1..] == [];
    } else {
      var m := CommitStep(CheckStep(s), results(i));
      assert Apply(o, position, s, Check) == CheckStep(s);
      assert Apply(o, position, CheckStep(s), CommitFront(results(i))) == m;
      var rest: seq<Step> := [];
      if results(i) == Acked {
        rest := CommitWhileRuns(o, position, m, results, i + 1);
      }
      RunTwo(o, position, s, Check, CommitFront(results(i)), rest);
      steps := [Check, CommitFront(results(i))] + rest;
    }
  }

  /** From s to s' the first n records of the queue, all durable, were committed in order and retired. */
  predicate Takes(s: State, s': State, n: nat) {
    && n <= |s.pending| && (forall k | 0 <= k < n :: s.pending[k].durable)
    && s'.pending == s.pending[n..]
    && |s'.commits| == |s.commits| + n && s.commits <= s'.commits
    && (forall k | 0 <= k < n :: s'.commits[|s.commits| + k] == s.pending[k].record)
  }

  lemma TakesMore(s: State, m: State, s': State, n: nat)
    requires s.pending != [] && s.pending[0].durable && Takes(m, s', n)
    requires m.pending == s.pending[1..] && m.commits == s.commits + [s.pending[0].record]
    ensures Takes(s, s', n + 1)
  {
    forall i | 0 <= i < n + 1
      ensures s.pending[i].durable && s'.commits[|s.commits| + i] == s.pending[i].record
    {
      if i == 0 {
        assert m.commits[|s.commits|] == s.pending[0].record;
      } else {
        assert m.pending[i - 1] == s.pending[i];
      }
    }
    assert s.pending[1..][n..] == s.pending[n + 1..];
  }

  /** With a broker that acknowledges everything, one pass retires exactly the longest durable prefix. */
  lemma {:induction false} CommitWhileTakesDurablePrefix(s: State, i: nat) returns (n: nat)
    requires !s.failed && s.pc == CheckFront
    ensures Takes(s, CommitWhile(s, _ => Acked, i), n)
    ensures n < |s.pending| ==> !s.pending[n].durable
    decreases |s.pending|
  {
    n := 0;
    if s.pending == [] || !s.pending[0].durable {
      CommitWhileEnd(s, _ => Acked, i);
    } else {
      var m := CommitStep(s, Acked);
      CommitWhileNext(s, _ => Acked, i);
      var k := CommitWhileTakesDurablePrefix(m, i + 1);
      n := k + 1;
      TakesMore(s, m, CommitWhile(m, _ => Acked, i + 1), k);
    }
  }

  lemma CommitWhileEnd(s: State, results: nat -> CommitResult, i: nat)
    requires s.pending == [] || !s.pending[0].durable || s.failed
    ensures CommitWhile(s, results, i) == CheckStep(s)
  {
  }

  lemma CommitWhileNext(s: State, results: nat -> CommitResult, i: nat)
    requires s.pending != [] && s.pending[0].durable && !s.failed && s.pc == CheckFront
    ensures results(i) != Acked ==> CommitWhile(s, results, i) == CommitStep(s, results(i))
    ensures results(i) == Acked ==> CommitWhile(s, results, i) == CommitWhile(CommitStep(s, Acked), results, i + 1)
  {
    assert CommitStep(CheckStep(s), results(i)) == CommitStep(s, results(i));
  }

  class ControlConsumer {
    const options: Options
    var running: bool
    var failed: bool
    var broker: Broker
    var pending: seq<Pending>
    var pendingBytes: int
    var work: Work
    ghost var pc: Pc
    ghost var polled: seq<Record>
    ghost var commits: seq<Record>
    ghost var ordinary: seq<nat>
    ghost var inline: seq<nat>

    constructor (options: Options, broker: Broker)
      ensures this.options == options && View() == Begin(broker)
    {
      this.options, running, failed, this.broker := options, true, false, broker;
      pending, pendingBytes, work := [], 0, NoWork;
      pc, polled, commits, ordinary, inline := Collect, [], [], [], [];
    }

    ghost function View(): State
      reads this
    {
      State(pc, running, failed, broker, pending, pendingBytes, work, polled, commits, ordinary, inline)
    }

    method CollectFinishedWork()
      requires running && (work.Finished? ==> pending != [])
      modifies this
      ensures View() == CollectStep(old(View()))
    {
      if work.Finished? {
        var ok := work.ok;
        work := NoWork;
        if !ok {
          failed, running, pc := true, false, Exited;
          return;
        }
        pending := pending[0 := pending[0].(durable := true)];
      }
      pc := CheckFront;
    }

    method CommitFrontRecord(result: CommitResult) returns (acked: bool)
      requires pending != [] && pc == CheckFront
      modifies this
      ensures View() == CommitStep(old(View()), result) && (acked <==> result == Acked)
    {
      var r := pending[0].record;
      if result != Refused {
        broker := Commit(broker, r);
        commits := commits + [r];
      }
      if result != Acked {
        failed, running, pc := true, false, Exited;
        return false;
      }
      pendingBytes := pendingBytes - |r.value|;
      pending := pending[1..];
      return true;
    }

    method CommitDurablePrefix(results: nat -> CommitResult)
      requires pc == CheckFront
      modifies this
      ensures View() == CommitWhile(old(View()), results, 0)
    {
      var i := 0;
      while pending != [] && pending[0].durable && !failed
        invariant pc == CheckFront
        invariant CommitWhile(View(), results, i) == CommitWhile(old(View()), results, 0)
        decreases |pending|
      {
        CommitWhileNext(View(), results, i);
        var acked := CommitFrontRecord(results(i));
        if !acked {
          return;
        }
        i := i + 1;
      }
      CommitWhileEnd(View(), results, i);
      pc := if running then StartFront else Exited;
    }

    method StartFrontRecord()
      requires pc == StartFront && |pending| <= |polled|
      modifies this
      ensures View() == StartStep(old(View()))
    {
      if work.NoWork? && pending != [] {
        work := Running(pending[0].record);
        ordinary := ordinary + [|polled| - |pending|];
      }
      pc := Polling;
    }

    method TakeNext(a: Arrival)
      requires pc == Polling
      modifies this
      ensures View() == PollStep(options, old(View()), a)
    {
      pc := Collect;
      if |pending| >= options.maxBatch || pendingBytes >= MAX_PENDING_BYTES {
        return;
      }
      match a {
        case Nothing =>
        case Error =>
        case PredicateThrew =>
          failed, running, pc := true, false, Exited;
        case Arrived(r, control) =>
          pendingBytes := pendingBytes + |r.value|;
          pending := pending + [Pending(r, false)];
          polled := polled + [r];
          if control {
            pc := Inline;
          }
      }
    }

    method RunControlRecord(out: Outcome)
      requires pc == Inline && pending != [] && polled != []
      modifies this
      ensures View() == ControlStep(options, old(View()), out)
    {
      var last := |pending| - 1;
      var (shared, ok) := Handle(options, Shared(running, failed, broker), pending[last].record, false, out);
      running, failed, broker := shared.running, shared.failed, shared.broker;
      inline := inline + [|polled| - 1];
      if ok {
        pending := pending[last := pending[last].(durable := true)];
        pc := Collect;
      } else {
        failed, running, pc := true, false, Exited;
      }
    }
  }
}
