/** HandleMessage and the one-record-at-a-time consumption loop. */
module KafkaConsumer {
  import opened KafkaBroker

  /** One attempt at the business callback: an exception counts as a refusal. */
  datatype Attempt = Returned(handled: bool) | Threw

  /** `LostAck`: the broker stored the offset although commitSync reported an error. */
  datatype CommitResult = Acked | LostAck | Refused

  /** What the outside world answers while one record is processed. */
  datatype Outcome = Outcome(callback: nat -> Attempt, deadLetterConfirmed: bool, commit: CommitResult)

  datatype Options = Options(maxAttempts: int, hasCallback: bool, hasDeadLetter: bool, autoCommit: bool,
                             workers: nat, maxBatch: nat, hasControls: bool)

  /** The combinations Init lets through. */
  predicate Accepted(o: Options) {
    && 1 <= o.workers <= 64 && o.workers <= o.maxBatch <= 1024
    && (o.workers > 1 ==> !o.autoCommit)
    && (o.hasControls ==> !o.autoCommit && o.workers == 1 && o.maxBatch >= 2)
    && (o.hasDeadLetter ==> !o.autoCommit)
  }

  /** The consumer flags together with the broker they act on. */
  datatype Shared = Shared(running: bool, failed: bool, broker: Broker)

  function Halt(s: Shared): Shared {
    s.(running := false, failed := true)
  }

  function Attempts(o: Options): nat {
    if o.maxAttempts < 1 then 1 else o.maxAttempts
  }

  predicate Handled(o: Options, callback: nat -> Attempt) {
    !o.hasCallback || exists a: nat | 1 <= a <= Attempts(o) :: callback(a) == Returned(true)
  }

  /** Handled by the business callback, or stored in the dead-letter topic. */
  predicate Resolved(o: Options, out: Outcome) {
    Handled(o, out.callback) || (o.hasDeadLetter && out.deadLetterConfirmed)
  }

  function CommitSync(o: Options, s: Shared, r: Record, result: CommitResult): Shared {
    var stored := if result == Refused then s else s.(broker := Commit(s.broker, r));
    if result != Acked && o.hasDeadLetter then Halt(stored) else stored
  }

  /** The whole effect of HandleMessage on a delivered record, and what it returns. */
  function Handle(o: Options, s: Shared, r: Record, commit: bool, out: Outcome): (Shared, bool) {
    if !Resolved(o, out) && o.hasDeadLetter then (Halt(s), false)
    else
      var settled := if Resolved(o, out) then s.(broker := Settle(s.broker, r)) else s;
      var done := if commit && !o.autoCommit then CommitSync(o, settled, r, out.commit) else settled;
      (done, (Resolved(o, out) || !(o.workers > 1 || o.hasControls)) && !done.failed)
  }

  /** What one consume() call brings, with the answers met while it is processed. */
  datatype Poll = Nothing | Error | StopRequested | Delivered(record: Record, outcome: Outcome)

  /** The one-record loop over everything that consume() will return. */
  function Loop(o: Options, s: Shared, script: seq<Poll>): Shared
    decreases |script|
  {
    if script == [] || !s.running then s
    else Loop(o, Step(o, s, script[0]), script[1..])
  }

  function Step(o: Options, s: Shared, poll: Poll): Shared {
    match poll
    case Delivered(r, out) => Handle(o, s, r, true, out).0
    case StopRequested => s.(running := false)
    case _ => s
  }

  class Consumer {
    const options: Options
    var running: bool
    var failed: bool
    var broker: Broker

    constructor (options: Options, broker: Broker)
      ensures this.options == options && View() == Shared(true, false, broker)
    {
      this.options, running, failed, this.broker := options, true, false, broker;
    }

    function View(): Shared
      reads this
    {
      Shared(running, failed, broker)
    }

    /** The retry loop of HandleMessage. `used` is the number of callback calls: it stops at the
        first success and never exceeds the configured attempts. */
    method CallBack(callback: nat -> Attempt) returns (handled: bool, used: nat)
      ensures handled == Handled(options, callback)
      ensures used <= Attempts(options)
      ensures forall a: nat | 1 <= a < used :: callback(a) != Returned(true)
      ensures options.hasCallback && handled ==> used >= 1 && callback(used) == Returned(true)
      ensures options.hasCallback && !handled ==> used == if options.maxAttempts >= 1 then options.maxAttempts else 1
    {
      handled, used := !options.hasCallback, 0;
      var attempts := if options.maxAttempts < 1 then 1 else options.maxAttempts;
      while options.hasCallback && used < attempts && !handled
        invariant used <= attempts
        invariant forall a: nat | 1 <= a < used :: callback(a) != Returned(true)
        invariant options.hasCallback ==>
                    if handled then used >= 1 && callback(used) == Returned(true)
                    else forall a: nat | 1 <= a <= used :: callback(a) != Returned(true)
        invariant !options.hasCallback ==> handled
        decreases attempts - used, !handled
      {
        used := used + 1;
        match callback(used) {
          case Returned(result) => handled := result;
          case Threw => handled := false;
        }
      }
    }

    method HandleMessage(r: Record, commit: bool, out: Outcome) returns (ok: bool)
      modifies this
      ensures (View(), ok) == Handle(options, old(View()), r, commit, out)
    {
      var handled, _ := CallBack(out.callback);
      if !handled && options.hasDeadLetter {
        handled := out.deadLetterConfirmed;
        if !handled {
          failed := true;
          running := false;
          return false;
        }
      }
      if handled {
        broker := Settle(broker, r);
      }
      if commit && !options.autoCommit {
        if out.commit != Refused {
          broker := Commit(broker, r);
        }
        if out.commit != Acked && options.hasDeadLetter {
          failed := true;
          running := false;
        }
      }
      if !handled && (options.workers > 1 || options.hasControls) {
        return false;
      }
      return !failed;
    }

    method Run(script: seq<Poll>)
      requires options.workers == 1 && !options.hasControls
      modifies this
      ensures View() == Loop(options, old(View()), script)
    {
      var i := 0;
      while running && i < |script|
        invariant i <= |script|
        invariant Loop(options, View(), script[i..]) == Loop(options, old(View()), script)
      {
        match script[i] {
          case Delivered(r, out) =>
            var _ := HandleMessage(r, true, out);
          case StopRequested => running := false;
          case Nothing =>
          case Error =>
        }
        assert script[i..][0] == script[i] && script[i..][1..] == script[i + 1..];
        i := i + 1;
      }
    }
  }

  /** The callback counts as successful if and only if one of its attempts succeeds: as many attempts as are
      configured, and one if less than one is. */
  lemma HandledExactlyWhen(o: Options, callback: nat -> Attempt)
    requires o.hasCallback
    ensures Handled(o, callback) <==>
              exists k: nat | 1 <= k && (k == 1 || k <= o.maxAttempts) :: callback(k) == Returned(true)
  {
    if k: nat :| 1 <= k && (k == 1 || k <= o.maxAttempts) && callback(k) == Returned(true) {
      assert 1 <= k <= Attempts(o);
    }
    if Handled(o, callback) {
      var k: nat :| 1 <= k <= Attempts(o) && callback(k) == Returned(true);
      assert k == 1 || k <= o.maxAttempts;
    }
  }

  // ----- durable mode: a dead-letter topic is configured

  function Records(script: seq<Poll>): seq<Record> {
    if script == [] then []
    else (if script[0].Delivered? then [script[0].record] else []) + Records(script[1..])
  }

  /** While the loop runs, everything fetched so far is settled. */
  ghost predicate Settled(s: Shared, position: Offsets) {
    && SettledUpTo(s.broker, position)
    && forall p: nat :: At(s.broker.committed, p) <= At(position, p)
  }

  lemma DurableHandle(o: Options, s: Shared, position: Offsets, r: Record, out: Outcome)
    requires o.hasDeadLetter && !o.autoCommit
    requires Settled(s, position) && r.offset == At(position, r.partition)
    ensures var s' := Handle(o, s, r, true, out).0;
            && Reaches(s.broker, s'.broker)
            && (s'.running ==> Settled(s', position[r.partition := r.offset + 1]))
  {
    var s' := Handle(o, s, r, true, out).0;
    if Resolved(o, out) {
      var b, position' := Settle(s.broker, r), position[r.partition := r.offset + 1];
      ReachesSettle(s.broker, r);
      assert SettledBelow(s.broker, r.partition, r.offset);
      assert At(s.broker.committed, r.partition) <= At(position, r.partition);
      assert CommitAllowed(b, r);
      ReachesCommit(b, r);
      ReachesTrans(s.broker, b, Commit(b, r));
      forall p: nat
        ensures SettledBelow(b, p, At(position', p))
        ensures At(Commit(b, r).committed, p) <= At(position', p)
      {
        assert SettledBelow(s.broker, p, At(position, p));
        assert At(s.broker.committed, p) <= At(position, p);
      }
      if s'.running {
        forall p: nat ensures SettledBelow(s'.broker, p, At(position', p)) {
          assert SettledBelow(b, p, At(position', p));
        }
      }
    } else {
      ReachesRefl(s.broker);
    }
  }

  /** The durable one-record loop implements the abstract consumer, whatever the callback, the
      dead-letter topic, the broker and the stop request do, and wherever the script ends. */
  lemma {:induction false} DurableLoopRefines(o: Options, s: Shared, position: Offsets, script: seq<Poll>)
    requires o.hasDeadLetter && !o.autoCommit
    requires s.running ==> Settled(s, position)
    requires Fetched(position, Records(script))
    ensures Reaches(s.broker, Loop(o, s, script).broker)
    decreases |script|
  {
    if script == [] || !s.running {
      ReachesRefl(s.broker);
    } else {
      var s' := Step(o, s, script[0]);
      match script[0] {
        case Delivered(r, out) =>
          assert Records(script)[0] == r && Records(script)[1..] == Records(script[1..]);
          DurableHandle(o, s, position, r, out);
          DurableLoopRefines(o, s', position[r.partition := r.offset + 1], script[1..]);
        case _ =>
          assert Records(script) == Records(script[1..]);
          ReachesRefl(s.broker);
          DurableLoopRefines(o, s', position, script[1..]);
      }
      ReachesTrans(s.broker, s'.broker, Loop(o, s, script).broker);
    }
  }

  /** Once a consumer has halted, or was asked to stop, no record is handled and none committed. */
  lemma {:induction false} NothingAfterHalt(o: Options, s: Shared, before: seq<Poll>, after: seq<Poll>)
    requires !Loop(o, s, before).running
    ensures Loop(o, s, before + after) == Loop(o, s, before)
    decreases |before|
  {
    if before == [] {
      assert before + after == after;
    } else if s.running {
      assert (before + after)[0] == before[0] && (before + after)[1..] == before[1..] + after;
      NothingAfterHalt(o, Step(o, s, before[0]), before[1..], after);
    }
  }

  // ----- best-effort mode: no dead-letter topic

  /** The records and answers the loop gets to see before it is asked to stop. */
  datatype Delivery = Delivery(record: Record, outcome: Outcome)

  function Seen(script: seq<Poll>): seq<Delivery> {
    if script == [] || script[0].StopRequested? then []
    else (if script[0].Delivered? then [Delivery(script[0].record, script[0].outcome)] else []) + Seen(script[1..])
  }

  function RecordsOf(ds: seq<Delivery>): seq<Record> {
    seq(|ds|, i requires 0 <= i < |ds| => ds[i].record)
  }

  function BestEffort(o: Options, b: Broker, ds: seq<Delivery>): Broker {
    if ds == [] then b
    else
      var d := ds[|ds| - 1];
      var b' := BestEffort(o, b, ds[..|ds| - 1]);
      var settled := if Resolved(o, d.outcome) then Settle(b', d.record) else b';
      if d.outcome.commit == Refused then settled else Commit(settled, d.record)
  }

  /** A record that was neither handled now nor settled before, and an applied commit of the same
      record or of a later one in its partition. */
  predicate SkippedBy(o: Options, b: Broker, ds: seq<Delivery>, i: nat, j: nat)
    requires i < |ds| && j < |ds|
  {
    && i <= j && ds[i].record.partition == ds[j].record.partition
    && !Resolved(o, ds[i].outcome) && !IsSettled(b, ds[i].record)
    && ds[j].outcome.commit != Refused
  }

  predicate Skips(o: Options, b: Broker, ds: seq<Delivery>) {
    exists i: nat, j: nat | i < |ds| && j < |ds| :: SkippedBy(o, b, ds, i, j)
  }

  lemma {:induction false} BestEffortAppend(o: Options, b: Broker, xs: seq<Delivery>, ys: seq<Delivery>)
    ensures BestEffort(o, b, xs + ys) == BestEffort(o, BestEffort(o, b, xs), ys)
    decreases |ys|
  {
    if ys == [] {
      assert xs + ys == xs;
    } else {
      assert (xs + ys)[..|xs + ys| - 1] == xs + ys[..|ys| - 1];
      BestEffortAppend(o, b, xs, ys[..|ys| - 1]);
    }
  }

  lemma {:induction false} LoopIsBestEffort(o: Options, s: Shared, script: seq<Poll>)
    requires !o.hasDeadLetter && !o.autoCommit && s.running
    ensures Loop(o, s, script).broker == BestEffort(o, s.broker, Seen(script))
    decreases |script|
  {
    if script != [] {
      var s', rest := Step(o, s, script[0]), Seen(script[1..]);
      match script[0] {
        case StopRequested =>
          assert Loop(o, s, script) == s';
        case Delivered(r, out) =>
          LoopIsBestEffort(o, s', script[1..]);
          var d := [Delivery(r, out)];
          BestEffortAppend(o, s.broker, d, rest);
          assert d[..0] == [];
          assert BestEffort(o, s.broker, d) == s'.broker;
        case _ =>
          LoopIsBestEffort(o, s', script[1..]);
          assert Seen(script) == rest;
      }
    }
  }

  lemma {:induction false} FetchedAt(position: Offsets, rs: seq<Record>, i: nat, j: nat)
    requires Fetched(position, rs) && i <= j < |rs| && rs[i].partition == rs[j].partition
    ensures At(position, rs[i].partition) <= rs[i].offset <= rs[j].offset
    ensures i < j ==> rs[i].offset < rs[j].offset
    decreases |rs|
  {
    var position' := position[rs[0].partition := rs[0].offset + 1];
    if i > 0 {
      FetchedAt(position', rs[1..], i - 1, j - 1);
    } else if j > 0 {
      FetchedAt(position', rs[1..], j - 1, j - 1);
    }
  }

  /** The fetched offsets of a partition leave no gap. */
  lemma {:induction false} FetchedHits(position: Offsets, rs: seq<Record>, j: nat, o: nat) returns (i: nat)
    requires Fetched(position, rs) && j < |rs|
    requires At(position, rs[j].partition) <= o <= rs[j].offset
    ensures i <= j && rs[i].partition == rs[j].partition && rs[i].offset == o
    decreases |rs|
  {
    if rs[0].partition == rs[j].partition && rs[0].offset == o {
      i := 0;
    } else {
      i := FetchedHits(position[rs[0].partition := rs[0].offset + 1], rs[1..], j - 1, o);
      i := i + 1;
    }
  }

  /** What a best-effort run leaves behind, record by record. */
  lemma {:induction false} BestEffortEffect(o: Options, b: Broker, ds: seq<Delivery>)
    ensures forall q :: q in BestEffort(o, b, ds).settled <==>
                        q in b.settled ||
                        exists i | 0 <= i < |ds| ::
                          Resolved(o, ds[i].outcome) && q == (ds[i].record.partition, ds[i].record.offset)
    ensures forall p: nat ::
              || At(BestEffort(o, b, ds).committed, p) == At(b.committed, p)
              || exists j | 0 <= j < |ds| :: ds[j].outcome.commit != Refused && ds[j].record.partition == p &&
                                             At(BestEffort(o, b, ds).committed, p) == ds[j].record.offset + 1
    decreases |ds|
  {
    if ds != [] {
      var n := |ds| - 1;
      BestEffortEffect(o, b, ds[..n]);
      var b', b'' := BestEffort(o, b, ds[..n]), BestEffort(o, b, ds);
      forall p: nat
        ensures || At(b''.committed, p) == At(b.committed, p)
                || exists j | 0 <= j < |ds| :: ds[j].outcome.commit != Refused && ds[j].record.partition == p &&
                                               At(b''.committed, p) == ds[j].record.offset + 1
      {
        if p == ds[n].record.partition && ds[n].outcome.commit != Refused {
        } else {
          assert At(b''.committed, p) == At(b'.committed, p);
        }
      }
      forall q
        ensures q in b''.settled <==>
                q in b.settled ||
                exists i | 0 <= i < |ds| :: Resolved(o, ds[i].outcome) && q == (ds[i].record.partition, ds[i].record.offset)
      {
        if Resolved(o, ds[n].outcome) && q == (ds[n].record.partition, ds[n].record.offset) {
        } else {
          assert q in b''.settled <==> q in b'.settled;
        }
      }
    }
  }

  /** A commit that was applied is never undone by later ones. */
  lemma {:induction false} CommitsStay(o: Options, b: Broker, ds: seq<Delivery>, position: Offsets, j: nat)
    requires Fetched(position, RecordsOf(ds)) && j < |ds| && ds[j].outcome.commit != Refused
    ensures At(BestEffort(o, b, ds).committed, ds[j].record.partition) > ds[j].record.offset
    decreases |ds|
  {
    var n := |ds| - 1;
    if j < n {
      var rs := RecordsOf(ds);
      assert rs == RecordsOf(ds[..n]) + [ds[n].record];
      FetchedAppend(position, RecordsOf(ds[..n]), [ds[n].record]);
      CommitsStay(o, b, ds[..n], position, j);
      if ds[n].record.partition == ds[j].record.partition {
        FetchedAt(position, rs, j, n);
      }
    }
  }

  /** Without a dead-letter topic the durable prefix can break, and exactly then: the run ends with a
      durable prefix if and only if no unresolved record is at or before an applied commit. */
  lemma BestEffortExactlyWhen(o: Options, s: Shared, script: seq<Poll>)
    requires !o.hasDeadLetter && !o.autoCommit && s.running
    requires DurablePrefix(s.broker)
    requires Fetched(s.broker.committed, RecordsOf(Seen(script)))
    ensures DurablePrefix(Loop(o, s, script).broker) <==> !Skips(o, s.broker, Seen(script))
  {
    var b, ds := s.broker, Seen(script);
    var rs, b' := RecordsOf(ds), BestEffort(o, b, ds);
    LoopIsBestEffort(o, s, script);
    BestEffortEffect(o, b, ds);
    if Skips(o, b, ds) {
      var i: nat, j: nat :| i < |ds| && j < |ds| && SkippedBy(o, b, ds, i, j);
      CommitsStay(o, b, ds, b.committed, j);
      FetchedAt(b.committed, rs, i, j);
      assert !IsSettled(b', rs[i]) by {
        if k :| 0 <= k < |ds| && Resolved(o, ds[k].outcome) &&
                (rs[i].partition, rs[i].offset) == (rs[k].partition, rs[k].offset) {
          FetchedAt(b.committed, rs, if i < k then i else k, if i < k then k else i);
        }
      }
      assert !SettledBelow(b', rs[i].partition, At(b'.committed, rs[i].partition));
    } else {
      forall p: nat, q: nat | q < At(b'.committed, p) ensures (p, q) in b'.settled {
        assert SettledBelow(b, p, At(b.committed, p));
        if q >= At(b.committed, p) {
          var j :| 0 <= j < |ds| && ds[j].outcome.commit != Refused && rs[j].partition == p &&
                   At(b'.committed, p) == rs[j].offset + 1;
          var i := FetchedHits(b.committed, rs, j, q);
          assert !SkippedBy(o, b, ds, i, j);
        }
      }
    }
  }

  /** One refused record in best-effort mode: its offset is committed and the record is lost. */
  lemma BestEffortLosesRecord()
    ensures var o := Options(3, true, false, false, 1, 16, false);
            var poll := Delivered(Record(0, 0, "", "m"), Outcome((a: nat) => Returned(false), true, Acked));
            var s := Shared(true, false, Broker(map[], {}));
            && Accepted(o) && DurablePrefix(s.broker)
            && !DurablePrefix(Loop(o, s, [poll]).broker)
  {
    var o := Options(3, true, false, false, 1, 16, false);
    var out := Outcome((a: nat) => Returned(false), true, Acked);
    var poll := Delivered(Record(0, 0, "", "m"), out);
    var s := Shared(true, false, Broker(map[], {}));
    var s' := Loop(o, s, [poll]);
    assert [poll][1..] == [] && s' == Loop(o, Step(o, s, poll), []);
    assert !Resolved(o, out);
    assert s'.broker == Commit(s.broker, poll.record);
    assert (0, 0) !in s'.broker.settled && At(s'.broker.committed, 0) == 1;
    assert !SettledBelow(s'.broker, 0, At(s'.broker.committed, 0));
  }
}
