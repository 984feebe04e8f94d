/** Parallel batches: lanes per key, interleaved workers, one commit pass after the join. */
module KafkaBatch {
  import opened KafkaBroker
  import opened KafkaConsumer

  // ----- lanes

  predicate Increasing(lane: seq<nat>) {
    forall a, b | 0 <= a < b < |lane| :: lane[a] < lane[b]
  }

  predicate DistinctKeys(batch: seq<Record>) {
    forall i, j | 0 <= i < j < |batch| :: batch[i].key != batch[j].key
  }

  /** Batch index `i` is the k-th job of lane `l`. */
  predicate Placed(jobs: seq<seq<nat>>, i: nat, l: nat, k: nat) {
    l < |jobs| && k < |jobs[l]| && jobs[l][k] == i
  }

  ghost predicate HasPlace(jobs: seq<seq<nat>>, i: nat) {
    exists l: nat, k: nat :: Placed(jobs, i, l, k)
  }

  predicate InBatch(batch: seq<Record>, jobs: seq<seq<nat>>) {
    forall l, k | 0 <= l < |jobs| && 0 <= k < |jobs[l]| :: jobs[l][k] < |batch|
  }

  /** The lanes partition the batch, keep its order, and never split a key. */
  ghost predicate IsLanes(batch: seq<Record>, jobs: seq<seq<nat>>) {
    && InBatch(batch, jobs)
    && (forall l | 0 <= l < |jobs| :: Increasing(jobs[l]))
    && (forall i: nat | i < |batch| :: HasPlace(jobs, i))
    && (forall l, m, k, n | 0 <= l < |jobs| && 0 <= m < |jobs| && 0 <= k < |jobs[l]| && 0 <= n < |jobs[m]| &&
                            batch[jobs[l][k]].key == batch[jobs[m][n]].key :: l == m)
  }

  method AssignLanes(batch: seq<Record>, workers: nat) returns (jobs: seq<seq<nat>>)
    requires workers >= 1
    ensures |jobs| == if |batch| < workers then |batch| else workers
    ensures IsLanes(batch, jobs)
    ensures DistinctKeys(batch) ==>
              forall l, m | 0 <= l < |jobs| && 0 <= m < |jobs| :: |jobs[l]| <= |jobs[m]| + 1
  {
    var lanes := if |batch| < workers then |batch| else workers;
    jobs := seq(lanes, _ => []);
    var laneOf: map<string, nat> := map[];
    for i := 0 to |batch|
      invariant |jobs| == lanes && InLanes(batch, i, jobs, laneOf)
      invariant forall l | 0 <= l < lanes :: Increasing(jobs[l])
      invariant forall j: nat | j < i :: HasPlace(jobs, j)
      invariant forall key :: key in laneOf ==> exists j: nat | j < i :: batch[j].key == key
      invariant DistinctKeys(batch) ==> Balanced(jobs)
    {
      var key := batch[i].key;
      ghost var known := laneOf;
      if key !in laneOf {
        var shortest := Shortest(jobs);
        laneOf := laneOf[key := shortest];
      }
      var lane := laneOf[key];
      ghost var before := jobs;
      jobs := jobs[lane := jobs[lane] + [i]];
      PlacesAfter(before, i, lane, jobs);
      LanesAfter(batch, i, before, laneOf, lane, jobs);
      if DistinctKeys(batch) {
        assert key !in known;
        BalancedAfter(before, i, lane, jobs);
      }
    }
  }

  /** The first i records, each in the lane of its key. */
  predicate InLanes(batch: seq<Record>, i: nat, jobs: seq<seq<nat>>, laneOf: map<string, nat>)
    requires i <= |batch|
  {
    && (forall key :: key in laneOf ==> laneOf[key] < |jobs|)
    && (forall l, k | 0 <= l < |jobs| && 0 <= k < |jobs[l]| ::
          jobs[l][k] < i && batch[jobs[l][k]].key in laneOf && laneOf[batch[jobs[l][k]].key] == l)
  }

  predicate Balanced(jobs: seq<seq<nat>>) {
    forall l, m | 0 <= l < |jobs| && 0 <= m < |jobs| :: |jobs[l]| <= |jobs[m]| + 1
  }

  lemma LanesAfter(batch: seq<Record>, i: nat, before: seq<seq<nat>>, laneOf: map<string, nat>, lane: nat,
                   jobs: seq<seq<nat>>)
    requires i < |batch| && lane < |before| && jobs == before[lane := before[lane] + [i]]
    requires InLanes(batch, i, before, laneOf) && batch[i].key in laneOf && laneOf[batch[i].key] == lane
    requires forall l | 0 <= l < |before| :: Increasing(before[l])
    ensures InLanes(batch, i + 1, jobs, laneOf) && forall l | 0 <= l < |jobs| :: Increasing(jobs[l])
  {
    forall l | 0 <= l < |jobs| ensures Increasing(jobs[l]) {
      assert Increasing(before[l]);
    }
  }

  lemma BalancedAfter(before: seq<seq<nat>>, i: nat, lane: nat, jobs: seq<seq<nat>>)
    requires lane < |before| && jobs == before[lane := before[lane] + [i]]
    requires Balanced(before) && forall l | 0 <= l < |before| :: |before[lane]| <= |before[l]|
    ensures Balanced(jobs)
  {
  }

  lemma PlacesAfter(before: seq<seq<nat>>, i: nat, lane: nat, jobs: seq<seq<nat>>)
    requires lane < |before| && jobs == before[lane := before[lane] + [i]]
    requires forall j: nat | j < i :: HasPlace(before, j)
    ensures forall j: nat | j < i + 1 :: HasPlace(jobs, j)
  {
    forall j: nat | j < i + 1 ensures HasPlace(jobs, j) {
      if j == i {
        assert Placed(jobs, i, lane, |before[lane]|);
      } else {
        assert HasPlace(before, j);
        var l: nat, k: nat :| Placed(before, j, l, k);
        assert Placed(jobs, j, l, k);
      }
    }
  }

  method Shortest(jobs: seq<seq<nat>>) returns (lane: nat)
    requires jobs != []
    ensures lane < |jobs|
    ensures forall l | 0 <= l < |jobs| :: |jobs[lane]| <= |jobs[l]|
    ensures forall l | 0 <= l < lane :: |jobs[lane]| < |jobs[l]|
  {
    lane := 0;
    for l := 1 to |jobs|
      invariant lane < l
      invariant forall m | 0 <= m < l :: |jobs[lane]| <= |jobs[m]|
      invariant forall m | 0 <= m < lane :: |jobs[lane]| < |jobs[m]|
    {
      if |jobs[l]| < |jobs[lane]| {
        lane := l;
      }
    }
  }

  // ----- workers

  datatype Phase = Idle | Busy | Stopped

  /** The k-th job of a lane. */
  datatype Place = Place(lane: nat, rank: nat)

  /** `started` is the history of the jobs in the order their handling began. */
  datatype Lanes = Lanes(next: seq<nat>, phase: seq<Phase>, durable: bool, shared: Shared, started: seq<Place>)

  /** A worker looks at `failed_` and takes its next record, or finishes handling the record it has. */
  datatype LaneStep = Check(lane: nat) | Complete(lane: nat, outcome: Outcome)

  predicate Shape(jobs: seq<seq<nat>>, s: Lanes) {
    && |s.next| == |s.phase| == |jobs|
    && (forall l | 0 <= l < |jobs| :: s.next[l] <= |jobs[l]|)
    && (forall l | 0 <= l < |jobs| && s.phase[l] != Idle :: s.next[l] < |jobs[l]|)
  }

  function Start(jobs: seq<seq<nat>>, shared: Shared): Lanes {
    Lanes(seq(|jobs|, _ => 0), seq(|jobs|, _ => Idle), true, shared, [])
  }

  predicate Enabled(jobs: seq<seq<nat>>, s: Lanes, step: LaneStep)
    requires Shape(jobs, s)
  {
    && step.lane < |jobs|
    && if step.Check? then s.phase[step.lane] == Idle && s.next[step.lane] < |jobs[step.lane]|
       else s.phase[step.lane] == Busy
  }

  function Apply(o: Options, batch: seq<Record>, jobs: seq<seq<nat>>, s: Lanes, step: LaneStep): (s': Lanes)
    requires Shape(jobs, s) && InBatch(batch, jobs)
    ensures Shape(jobs, s')
  {
    if !Enabled(jobs, s, step) then s
    else
      var l := step.lane;
      match step
      case Check(_) =>
        if s.shared.failed then s.(phase := s.phase[l := Stopped], durable := false)
        else s.(phase := s.phase[l := Busy], started := s.started + [Place(l, s.next[l])])
      case Complete(_, out) =>
        var (shared', ok) := Handle(o, s.shared, batch[jobs[l][s.next[l]]], false, out);
        if ok then s.(phase := s.phase[l := Idle], next := s.next[l := s.next[l] + 1], shared := shared')
        else s.(phase := s.phase[l := Stopped], durable := false, shared := shared')
  }

  /** Any interleaving of the workers; a step that is not enabled changes nothing. */
  ghost function Interleave(o: Options, batch: seq<Record>, jobs: seq<seq<nat>>, s: Lanes, steps: seq<LaneStep>): (s': Lanes)
    requires Shape(jobs, s) && InBatch(batch, jobs)
    ensures Shape(jobs, s')
    decreases |steps|
  {
    if steps == [] then s
    else Interleave(o, batch, jobs, Apply(o, batch, jobs, s, steps[0]), steps[1..])
  }

  /** Every worker has left its lane. */
  predicate Joined(jobs: seq<seq<nat>>, s: Lanes)
    requires Shape(jobs, s)
  {
    forall l | 0 <= l < |jobs| :: s.phase[l] == Stopped || (s.phase[l] == Idle && s.next[l] == |jobs[l]|)
  }

  /** A started job is behind the cursor of its lane, or at it and no longer waiting. */
  predicate Behind(jobs: seq<seq<nat>>, s: Lanes, p: Place)
    requires Shape(jobs, s)
  {
    && p.lane < |jobs| && p.rank <= s.next[p.lane] && p.rank < |jobs[p.lane]|
    && (s.phase[p.lane] == Idle ==> p.rank < s.next[p.lane])
  }

  predicate LanesInv(batch: seq<Record>, jobs: seq<seq<nat>>, s: Lanes)
    requires InBatch(batch, jobs)
  {
    && Shape(jobs, s)
    && (s.durable ==> forall l | 0 <= l < |jobs| :: s.phase[l] != Stopped)
    && (forall l, k | 0 <= l < |jobs| && 0 <= k < s.next[l] :: IsSettled(s.shared.broker, batch[jobs[l][k]]))
    && (forall a | 0 <= a < |s.started| :: Behind(jobs, s, s.started[a]))
    && (forall a, b | 0 <= a < b < |s.started| && s.started[a].lane == s.started[b].lane ::
          s.started[a].rank < s.started[b].rank)
  }

  lemma HandleSettles(o: Options, s: Shared, r: Record, out: Outcome)
    requires o.workers > 1
    ensures var (s', ok) := Handle(o, s, r, false, out);
            && s'.broker.committed == s.broker.committed && s.broker.settled <= s'.broker.settled
            && (ok ==> IsSettled(s'.broker, r) && !s'.failed && s'.running == s.running && !s.failed)
  {
  }

  lemma LanesStep(o: Options, batch: seq<Record>, jobs: seq<seq<nat>>, s: Lanes, step: LaneStep)
    requires o.workers > 1 && InBatch(batch, jobs) && LanesInv(batch, jobs, s)
    ensures LanesInv(batch, jobs, Apply(o, batch, jobs, s, step))
  {
    if Enabled(jobs, s, step) {
      var s', l := Apply(o, batch, jobs, s, step), step.lane;
      if step.Complete? {
        HandleSettles(o, s.shared, batch[jobs[l][s.next[l]]], step.outcome);
      }
      forall a | 0 <= a < |s'.started| ensures Behind(jobs, s', s'.started[a]) {
        if a < |s.started| {
          assert Behind(jobs, s, s.started[a]);
        }
      }
      forall m, k | 0 <= m < |jobs| && 0 <= k < s'.next[m]
        ensures IsSettled(s'.shared.broker, batch[jobs[m][k]])
      {
        if k < s.next[m] {
          assert IsSettled(s.shared.broker, batch[jobs[m][k]]);
        }
      }
    }
  }

  /** What holds in every state of every interleaving of the workers. */
  lemma {:induction false} LanesRun(o: Options, batch: seq<Record>, jobs: seq<seq<nat>>, s: Lanes, steps: seq<LaneStep>)
    requires o.workers > 1 && InBatch(batch, jobs) && LanesInv(batch, jobs, s)
    ensures LanesInv(batch, jobs, Interleave(o, batch, jobs, s, steps))
    decreases |steps|
  {
    if steps != [] {
      LanesStep(o, batch, jobs, s, steps[0]);
      LanesRun(o, batch, jobs, Apply(o, batch, jobs, s, steps[0]), steps[1..]);
    }
  }

  /** The workers only settle records; no offset moves before they are joined. */
  lemma {:induction false} LanesReach(o: Options, batch: seq<Record>, jobs: seq<seq<nat>>, s: Lanes, steps: seq<LaneStep>)
    requires o.workers > 1 && InBatch(batch, jobs) && Shape(jobs, s)
    ensures var s' := Interleave(o, batch, jobs, s, steps);
            && Reaches(s.shared.broker, s'.shared.broker)
            && s'.shared.broker.committed == s.shared.broker.committed
    decreases |steps|
  {
    if steps == [] {
      ReachesRefl(s.shared.broker);
    } else {
      var m := Apply(o, batch, jobs, s, steps[0]);
      LanesReach(o, batch, jobs, m, steps[1..]);
      if Enabled(jobs, s, steps[0]) && steps[0].Complete? {
        var l := steps[0].lane;
        var r := batch[jobs[l][s.next[l]]];
        HandleSettles(o, s.shared, r, steps[0].outcome);
        if m.shared.broker != s.shared.broker {
          ReachesSettle(s.shared.broker, r);
          assert m.shared.broker == Settle(s.shared.broker, r);
          ReachesTrans(s.shared.broker, m.shared.broker, Interleave(o, batch, jobs, s, steps).shared.broker);
        }
      }
    }
  }

  function Index(jobs: seq<seq<nat>>, p: Place): nat
    requires p.lane < |jobs| && p.rank < |jobs[p.lane]|
  {
    jobs[p.lane][p.rank]
  }

  /** Under every interleaving, a record starts only when every earlier record with its key is settled. */
  lemma StartsAfterEarlier(o: Options, batch: seq<Record>, jobs: seq<seq<nat>>, shared: Shared, steps: seq<LaneStep>, b: nat)
    requires o.workers > 1 && IsLanes(batch, jobs)
    requires b < |Interleave(o, batch, jobs, Start(jobs, shared), steps).started|
    ensures var s := Interleave(o, batch, jobs, Start(jobs, shared), steps);
            && Behind(jobs, s, s.started[b])
            && var y := Index(jobs, s.started[b]);
            && y < |batch|
            && forall z: nat | z < y && batch[z].key == batch[y].key :: IsSettled(s.shared.broker, batch[z])
  {
    var s := Interleave(o, batch, jobs, Start(jobs, shared), steps);
    LanesRun(o, batch, jobs, Start(jobs, shared), steps);
    var q := s.started[b];
    assert Behind(jobs, s, q);
    var y := Index(jobs, q);
    forall z: nat | z < y && batch[z].key == batch[y].key ensures IsSettled(s.shared.broker, batch[z]) {
      assert HasPlace(jobs, z);
      var l: nat, k: nat :| Placed(jobs, z, l, k);
      EarlierRank(batch, jobs, z, y, l, k, q.lane, q.rank);
    }
  }

  /** Same-key order, under every interleaving: no record starts twice, records with one key start in
      batch order, and when a record has started every earlier record with its key is settled. */
  lemma SameKeyInOrder(o: Options, batch: seq<Record>, jobs: seq<seq<nat>>, shared: Shared, steps: seq<LaneStep>, a: nat, b: nat)
    requires o.workers > 1 && IsLanes(batch, jobs)
    requires a < b < |Interleave(o, batch, jobs, Start(jobs, shared), steps).started|
    ensures var s := Interleave(o, batch, jobs, Start(jobs, shared), steps);
            && Behind(jobs, s, s.started[a]) && Behind(jobs, s, s.started[b])
            && var x, y := Index(jobs, s.started[a]), Index(jobs, s.started[b]);
            && x != y && (batch[x].key == batch[y].key ==> x < y)
            && (forall z: nat | z < y && batch[z].key == batch[y].key :: IsSettled(s.shared.broker, batch[z]))
  {
    var s := Interleave(o, batch, jobs, Start(jobs, shared), steps);
    LanesRun(o, batch, jobs, Start(jobs, shared), steps);
    StartsAfterEarlier(o, batch, jobs, shared, steps, b);
    var p, q := s.started[a], s.started[b];
    assert Behind(jobs, s, p) && Behind(jobs, s, q);
    if batch[Index(jobs, p)].key == batch[Index(jobs, q)].key {
      assert p.lane == q.lane;
      assert Increasing(jobs[p.lane]);
    }
  }

  lemma EarlierRank(batch: seq<Record>, jobs: seq<seq<nat>>, z: nat, y: nat, l: nat, k: nat, m: nat, n: nat)
    requires IsLanes(batch, jobs) && Placed(jobs, z, l, k) && Placed(jobs, y, m, n)
    requires z < y && batch[z].key == batch[y].key
    ensures l == m && k < n
  {
    assert batch[jobs[l][k]].key == batch[jobs[m][n]].key;
    assert Increasing(jobs[m]);
  }

  // ----- the commit pass

  /** Commits in batch order until one is not acknowledged. */
  function CommitPass(s: Shared, batch: seq<Record>, results: nat -> CommitResult, i: nat): Shared
    requires i <= |batch|
    decreases |batch| - i
  {
    if i == |batch| then s
    else if results(i) == Acked then CommitPass(s.(broker := Commit(s.broker, batch[i])), batch, results, i + 1)
    else Halt(if results(i) == LostAck then s.(broker := Commit(s.broker, batch[i])) else s)
  }

  /** Whatever the broker answers, what is committed is a prefix of the batch, all of it or the
      consumer has halted. */
  lemma {:induction false} CommitPassIsPrefix(s: Shared, batch: seq<Record>, results: nat -> CommitResult, i: nat)
    returns (n: nat)
    requires i <= |batch|
    ensures i <= n <= |batch|
    ensures CommitPass(s, batch, results, i).broker == CommitAll(s.broker, batch[i..n])
    ensures n < |batch| ==> CommitPass(s, batch, results, i) == Halt(CommitPass(s, batch, results, i))
    ensures CommitPass(s, batch, results, i).running ==> s.running && n == |batch|
    decreases |batch| - i
  {
    n := i;
    assert batch[i..i] == [];
    if i < |batch| {
      if results(i) == Acked {
        var s' := s.(broker := Commit(s.broker, batch[i]));
        n := CommitPassIsPrefix(s', batch, results, i + 1);
        assert batch[i..n][0] == batch[i] && batch[i..n][1..] == batch[i + 1..n];
      } else if results(i) == LostAck {
        n := i + 1;
        assert batch[i..i + 1][0] == batch[i] && batch[i..i + 1][1..] == [];
      }
    }
  }

  /** One parallel batch: workers interleave, are joined, and then the batch is committed or the
      consumer halts. */
  ghost function ProcessBatch(o: Options, batch: seq<Record>, jobs: seq<seq<nat>>, s: Shared, steps: seq<LaneStep>,
                              results: nat -> CommitResult): Shared
    requires IsLanes(batch, jobs)
  {
    var end := Interleave(o, batch, jobs, Start(jobs, s), steps);
    AfterJoin(end.shared, end.durable, batch, results)
  }

  function AfterJoin(s: Shared, durable: bool, batch: seq<Record>, results: nat -> CommitResult): Shared {
    if !durable || s.failed then Halt(s) else CommitPass(s, batch, results, 0)
  }

  class BatchConsumer {
    var running: bool
    var failed: bool
    var broker: Broker

    constructor (broker: Broker)
      ensures View() == Shared(true, false, broker)
    {
      running, failed, this.broker := true, false, broker;
    }

    function View(): Shared
      reads this
    {
      Shared(running, failed, broker)
    }

    /** The tail of ProcessBatch, after all workers were joined. */
    method Finish(batch: seq<Record>, durable: bool, results: nat -> CommitResult)
      modifies this
      ensures View() == AfterJoin(old(View()), durable, batch, results)
    {
      if !durable || failed {
        failed := true;
        running := false;
        return;
      }
      var i := 0;
      while i < |batch|
        invariant i <= |batch|
        invariant CommitPass(View(), batch, results, i) == CommitPass(old(View()), batch, results, 0)
      {
        if results(i) != Refused {
          broker := Commit(broker, batch[i]);
        }
        if results(i) != Acked {
          failed := true;
          running := false;
          return;
        }
        i := i + 1;
      }
    }
  }

  /** All or nothing: if any record of the batch is unsettled when the workers are joined, or any
      worker failed, no offset moves and the consumer halts; otherwise every record was settled. */
  lemma BatchAllOrNothing(o: Options, batch: seq<Record>, jobs: seq<seq<nat>>, s: Shared, steps: seq<LaneStep>,
                          results: nat -> CommitResult)
    requires o.workers > 1 && IsLanes(batch, jobs)
    requires Joined(jobs, Interleave(o, batch, jobs, Start(jobs, s), steps))
    ensures var end := Interleave(o, batch, jobs, Start(jobs, s), steps);
            var s' := ProcessBatch(o, batch, jobs, s, steps, results);
            if end.durable && !end.shared.failed
            then forall i | 0 <= i < |batch| :: IsSettled(end.shared.broker, batch[i])
            else s'.broker.committed == s.broker.committed && s'.failed && !s'.running
  {
    LanesRun(o, batch, jobs, Start(jobs, s), steps);
    LanesReach(o, batch, jobs, Start(jobs, s), steps);
    var end := Interleave(o, batch, jobs, Start(jobs, s), steps);
    if end.durable && !end.shared.failed {
      JoinedSettled(batch, jobs, end);
    }
  }

  lemma JoinedSettled(batch: seq<Record>, jobs: seq<seq<nat>>, s: Lanes)
    requires IsLanes(batch, jobs) && LanesInv(batch, jobs, s) && Joined(jobs, s) && s.durable
    ensures forall i | 0 <= i < |batch| :: IsSettled(s.shared.broker, batch[i])
  {
    forall i: nat | i < |batch| ensures IsSettled(s.shared.broker, batch[i]) {
      assert HasPlace(jobs, i);
      var l: nat, k: nat :| Placed(jobs, i, l, k);
      assert IsSettled(s.shared.broker, batch[jobs[l][k]]);
    }
  }

  /** A parallel batch implements the abstract consumer. */
  lemma BatchRefines(o: Options, batch: seq<Record>, jobs: seq<seq<nat>>, s: Shared, position: Offsets,
                     steps: seq<LaneStep>, results: nat -> CommitResult)
    requires o.workers > 1 && IsLanes(batch, jobs)
    requires Settled(s, position) && Fetched(position, batch)
    requires Joined(jobs, Interleave(o, batch, jobs, Start(jobs, s), steps))
    ensures var s' := ProcessBatch(o, batch, jobs, s, steps, results);
            && Reaches(s.broker, s'.broker)
            && (s'.running ==> Settled(s', Advance(position, batch)))
  {
    LanesReach(o, batch, jobs, Start(jobs, s), steps);
    BatchAllOrNothing(o, batch, jobs, s, steps, results);
    var end := Interleave(o, batch, jobs, Start(jobs, s), steps);
    if end.durable && !end.shared.failed {
      var b := end.shared.broker;
      var n := CommitPassIsPrefix(end.shared, batch, results, 0);
      assert batch[..n] + batch[n..] == batch && batch[0..n] == batch[..n];
      FetchedAppend(position, batch[..n], batch[n..]);
      ReachesSafe(s.broker, b);
      forall p: nat ensures SettledBelow(b, p, At(position, p)) {
        assert SettledBelow(s.broker, p, At(position, p));
      }
      CommitFetched(b, position, batch[..n]);
      ReachesTrans(s.broker, b, CommitAll(b, batch[..n]));
      if n == |batch| {
        assert batch[..n] == batch;
      }
    }
  }

  // ----- the batch loop

  datatype Round = Round(batch: seq<Record>, jobs: seq<seq<nat>>, steps: seq<LaneStep>, results: nat -> CommitResult)

  /** Each round's lanes are lanes of its batch, its workers run until they are all joined, and its
      records are the next ones of their partitions. */
  ghost predicate Rounds(o: Options, s: Shared, position: Offsets, rounds: seq<Round>)
    decreases |rounds|
  {
    rounds == [] || !s.running ||
    var r := rounds[0];
    && IsLanes(r.batch, r.jobs) && Fetched(position, r.batch)
    && Joined(r.jobs, Interleave(o, r.batch, r.jobs, Start(r.jobs, s), r.steps))
    && Rounds(o, ProcessBatch(o, r.batch, r.jobs, s, r.steps, r.results), Advance(position, r.batch), rounds[1..])
  }

  ghost function BatchLoop(o: Options, s: Shared, position: Offsets, rounds: seq<Round>): Shared
    requires Rounds(o, s, position, rounds)
    decreases |rounds|
  {
    if rounds == [] || !s.running then s
    else
      var r := rounds[0];
      BatchLoop(o, ProcessBatch(o, r.batch, r.jobs, s, r.steps, r.results), Advance(position, r.batch), rounds[1..])
  }

  /** The batch loop implements the abstract consumer, with or without a dead-letter topic. */
  lemma {:induction false} BatchLoopRefines(o: Options, s: Shared, position: Offsets, rounds: seq<Round>)
    requires o.workers > 1 && Rounds(o, s, position, rounds)
    requires s.running ==> Settled(s, position)
    ensures Reaches(s.broker, BatchLoop(o, s, position, rounds).broker)
    decreases |rounds|
  {
    if rounds == [] || !s.running {
      ReachesRefl(s.broker);
    } else {
      var r := rounds[0];
      var s' := ProcessBatch(o, r.batch, r.jobs, s, r.steps, r.results);
      BatchRefines(o, r.batch, r.jobs, s, position, r.steps, r.results);
      BatchLoopRefines(o, s', Advance(position, r.batch), rounds[1..]);
      ReachesTrans(s.broker, s'.broker, BatchLoop(o, s, position, rounds).broker);
    }
  }
}
