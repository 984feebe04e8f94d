/** The broker as the consumer group sees it, and the one abstract consumer that every
    consumption loop is meant to implement: commit only a durable prefix. */
module KafkaBroker {

  datatype Record = Record(partition: nat, offset: nat, key: string, value: string)

  /** A per-partition counter; a partition that is absent stands at offset 0. */
  type Offsets = map<nat, nat>

  function At(m: Offsets, p: nat): nat {
    if p in m then m[p] else 0
  }

  /** `committed` is what the group would resume from. `settled` holds every record whose callback
      returned true at least once or whose dead letter was confirmed at least once. */
  datatype Broker = Broker(committed: Offsets, settled: set<(nat, nat)>)

  function Settle(b: Broker, r: Record): Broker {
    b.(settled := b.settled + {(r.partition, r.offset)})
  }

  /** commitSync(record) stores the offset after the record for the record's own partition. */
  function Commit(b: Broker, r: Record): Broker {
    b.(committed := b.committed[r.partition := r.offset + 1])
  }

  predicate IsSettled(b: Broker, r: Record) {
    (r.partition, r.offset) in b.settled
  }

  predicate SettledBelow(b: Broker, p: nat, n: nat) {
    forall o: nat | o < n :: (p, o) in b.settled
  }

  /** Nothing below a committed offset is lost: it was handled or dead-lettered. */
  ghost predicate DurablePrefix(b: Broker) {
    forall p: nat :: SettledBelow(b, p, At(b.committed, p))
  }

  // ----- the abstract consumer

  /** A commit is allowed only past records that are all settled, and never moves backwards. */
  predicate CommitAllowed(b: Broker, r: Record) {
    At(b.committed, r.partition) <= r.offset + 1 && SettledBelow(b, r.partition, r.offset + 1)
  }

  ghost predicate DurableStep(b: Broker, b': Broker) {
    || (exists r: Record :: b' == Settle(b, r))
    || (exists r: Record :: CommitAllowed(b, r) && b' == Commit(b, r))
  }

  ghost predicate DurableTrace(trace: seq<Broker>) {
    |trace| > 0 && forall i | 0 <= i < |trace| - 1 :: DurableStep(trace[i], trace[i + 1])
  }

  /** Some run of the abstract consumer leads from `b` to `b'`. */
  ghost predicate Reaches(b: Broker, b': Broker) {
    exists trace :: DurableTrace(trace) && trace[0] == b && trace[|trace| - 1] == b'
  }

  lemma ReachesRefl(b: Broker)
    ensures Reaches(b, b)
  {
    assert DurableTrace([b]) && [b][0] == b;
  }

  lemma ReachesStep(b: Broker, b': Broker)
    requires DurableStep(b, b')
    ensures Reaches(b, b')
  {
    var trace := [b, b'];
    assert DurableTrace(trace) && trace[0] == b && trace[|trace| - 1] == b';
  }

  lemma ReachesTrans(b: Broker, m: Broker, b': Broker)
    requires Reaches(b, m) && Reaches(m, b')
    ensures Reaches(b, b')
  {
    var s :| DurableTrace(s) && s[0] == b && s[|s| - 1] == m;
    var t :| DurableTrace(t) && t[0] == m && t[|t| - 1] == b';
    var u := s + t[1..];
    forall i | 0 <= i < |u| - 1 ensures DurableStep(u[i], u[i + 1]) {
      if i >= |s| - 1 {
        assert u[i] == t[i - |s| + 1] && u[i + 1] == t[i - |s| + 2];
      }
    }
    assert DurableTrace(u) && u[0] == b && u[|u| - 1] == b';
  }

  lemma ReachesSettle(b: Broker, r: Record)
    ensures Reaches(b, Settle(b, r))
  {
    assert DurableStep(b, Settle(b, r));
    ReachesStep(b, Settle(b, r));
  }

  lemma ReachesCommit(b: Broker, r: Record)
    requires CommitAllowed(b, r)
    ensures Reaches(b, Commit(b, r))
  {
    assert DurableStep(b, Commit(b, r));
    ReachesStep(b, Commit(b, r));
  }

  /** What every run of the abstract consumer keeps: committed offsets never move back, a settled
      record stays settled, and nothing unsettled is ever below a committed offset. */
  lemma ReachesSafe(b: Broker, b': Broker)
    requires Reaches(b, b')
    ensures b.settled <= b'.settled
    ensures forall p: nat :: At(b.committed, p) <= At(b'.committed, p)
    ensures DurablePrefix(b) ==> DurablePrefix(b')
  {
    var trace :| DurableTrace(trace) && trace[0] == b && trace[|trace| - 1] == b';
    TraceSafe(trace, |trace| - 1);
  }

  lemma {:induction false} TraceSafe(trace: seq<Broker>, n: nat)
    requires DurableTrace(trace) && n < |trace|
    ensures trace[0].settled <= trace[n].settled
    ensures forall p: nat :: At(trace[0].committed, p) <= At(trace[n].committed, p)
    ensures DurablePrefix(trace[0]) ==> DurablePrefix(trace[n])
  {
    if n > 0 {
      TraceSafe(trace, n - 1);
      StepSafe(trace[n - 1], trace[n]);
    }
  }

  lemma StepSafe(b: Broker, b': Broker)
    requires DurableStep(b, b')
    ensures b.settled <= b'.settled
    ensures forall p: nat :: At(b.committed, p) <= At(b'.committed, p)
    ensures DurablePrefix(b) ==> DurablePrefix(b')
  {
    if r: Record :| b' == Settle(b, r) {
      forall p: nat ensures DurablePrefix(b) ==> SettledBelow(b', p, At(b'.committed, p)) {
        if DurablePrefix(b) {
          assert SettledBelow(b, p, At(b.committed, p));
        }
      }
    } else {
      var r: Record :| CommitAllowed(b, r) && b' == Commit(b, r);
      forall p: nat ensures DurablePrefix(b) ==> SettledBelow(b', p, At(b'.committed, p)) {
        if DurablePrefix(b) {
          assert SettledBelow(b, p, At(b.committed, p));
        }
      }
    }
  }

  // ----- fetching

  /** Where the next record of each partition is read from after `polled` was delivered. */
  function Advance(position: Offsets, polled: seq<Record>): Offsets
    decreases |polled|
  {
    if polled == [] then position
    else Advance(position[polled[0].partition := polled[0].offset + 1], polled[1..])
  }

  /** The fetch contract of the broker: within a partition, records come one offset after another. */
  predicate Fetched(position: Offsets, polled: seq<Record>)
    decreases |polled|
  {
    polled == [] ||
    (polled[0].offset == At(position, polled[0].partition) &&
     Fetched(position[polled[0].partition := polled[0].offset + 1], polled[1..]))
  }

  lemma {:induction false} FetchedAppend(position: Offsets, xs: seq<Record>, ys: seq<Record>)
    ensures Fetched(position, xs + ys) <==> Fetched(position, xs) && Fetched(Advance(position, xs), ys)
    ensures Advance(position, xs + ys) == Advance(Advance(position, xs), ys)
    decreases |xs|
  {
    if xs == [] {
      assert xs + ys == ys;
    } else {
      assert (xs + ys)[1..] == xs[1..] + ys;
      FetchedAppend(position[xs[0].partition := xs[0].offset + 1], xs[1..], ys);
    }
  }

  /** Everything that was read below a fetch position has been settled. */
  ghost predicate SettledUpTo(b: Broker, position: Offsets) {
    forall p: nat :: SettledBelow(b, p, At(position, p))
  }

  /** Committing, in order, a run of freshly fetched and settled records is a run of the abstract
      consumer, whatever the interleaving of partitions. */
  lemma {:induction false} CommitFetched(b: Broker, position: Offsets, rs: seq<Record>)
    requires Fetched(position, rs)
    requires SettledUpTo(b, position)
    requires forall p: nat :: At(b.committed, p) <= At(position, p)
    requires forall i | 0 <= i < |rs| :: IsSettled(b, rs[i])
    ensures Reaches(b, CommitAll(b, rs))
    ensures SettledUpTo(CommitAll(b, rs), Advance(position, rs))
    ensures forall p: nat :: At(CommitAll(b, rs).committed, p) <= At(Advance(position, rs), p)
    decreases |rs|
  {
    if rs == [] {
      ReachesRefl(b);
    } else {
      var r, position' := rs[0], position[rs[0].partition := rs[0].offset + 1];
      var b' := Commit(b, r);
      assert SettledBelow(b, r.partition, At(position, r.partition));
      assert CommitAllowed(b, r) by {
        assert At(b.committed, r.partition) <= At(position, r.partition);
        assert IsSettled(b, rs[0]);
      }
      ReachesCommit(b, r);
      forall p: nat
        ensures SettledBelow(b', p, At(position', p)) && At(b'.committed, p) <= At(position', p)
      {
        assert SettledBelow(b, p, At(position, p));
        assert At(b.committed, p) <= At(position, p);
      }
      forall i | 0 <= i < |rs[1..]| ensures IsSettled(b', rs[1..][i]) {
        assert IsSettled(b, rs[i + 1]);
      }
      CommitFetched(b', position', rs[1..]);
      ReachesTrans(b, b', CommitAll(b, rs));
    }
  }

  function CommitAll(b: Broker, rs: seq<Record>): Broker
    decreases |rs|
  {
    if rs == [] then b else CommitAll(Commit(b, rs[0]), rs[1..])
  }
}
