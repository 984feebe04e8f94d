/** One Comet-to-Logic stream: bounded admission, the writer, the reader, disconnects and the watchdog.
    Each step is one lock-held section, or the firing of one callback outside all locks. */
module UpstreamStream {

  const MAX_REQUESTS: nat := 512
  const MAX_BYTES: nat := 8 * 1024 * 1024

  const BUSY: int := 429
  const UNAVAILABLE: int := 503
  const TIMED_OUT: int := 504

  datatype Request = Request(id: nat, size: nat, deadline: int)

  /** The writer thread: between requests, holding one that is not registered, between registering it
      and the result of Write, and after a failed Write that is still registered. */
  datatype Writer = Idle | Hand(request: Request) | Writing(request: Request) | WriteFailed(request: Request)

  /** `taken` are callbacks moved out of the tables and about to be fired with a code; `fired` is the
      once-flag of each callback; `admitted` and `log` are history. */
  datatype State = State(counter: nat, running: bool, queue: seq<Request>, queuedBytes: int, pending: map<nat, int>,
                         writer: Writer, taken: set<(nat, int)>, fired: set<nat>, admitted: set<nat>, log: seq<(nat, int)>)

  const START := State(0, true, [], 0, map[], Idle, {}, {}, {}, [])

  datatype Step =
    | Send(size: nat, deadline: int)
    | Pop
    | Register
    | Write(accepted: bool)
    | Unregister
    | GiveUp
    | Reply(id: nat, code: int)
    | Disconnect
    | ExpirePending(now: int)
    | ExpireQueue(now: int)
    | FireTaken(id: nat, code: int)
    | Shutdown

  predicate Enabled(s: State, step: Step) {
    match step
    case Pop => s.writer.Idle? && s.queue != []
    case Register => s.writer.Hand?
    case Write(_) => s.writer.Writing?
    case Unregister => s.writer.WriteFailed?
    case GiveUp => s.writer.Hand?
    case FireTaken(id, code) => (id, code) in s.taken
    case _ => true
  }

  /** The callback wrapper: the first call wins, later ones are ignored. */
  function Fire(s: State, id: nat, code: int): State {
    if id in s.fired then s else s.(fired := s.fired + {id}, log := s.log + [(id, code)])
  }

  function Admits(s: State, size: nat): bool {
    s.running && |s.queue| + |s.pending| < MAX_REQUESTS && size <= MAX_BYTES - s.queuedBytes
  }

  function Take(s: State, ids: set<nat>, code: int): set<(nat, int)> {
    s.taken + set id | id in ids :: (id, code)
  }

  function Due(pending: map<nat, int>, now: int): set<nat> {
    set id | id in pending && pending[id] <= now
  }

  /** How many requests at the front of the queue have passed their deadline. */
  function Stale(queue: seq<Request>, now: int): (n: nat)
    ensures n <= |queue|
  {
    if queue == [] || queue[0].deadline > now then 0 else 1 + Stale(queue[1..], now)
  }

  function Bytes(queue: seq<Request>): nat {
    if queue == [] then 0 else queue[0].size + Bytes(queue[1..])
  }

  function Ids(queue: seq<Request>): set<nat> {
    set r | r in queue :: r.id
  }

  function Apply(s: State, step: Step): State {
    if !Enabled(s, step) then s
    else
      match step
      case Send(size, deadline) =>
        var s' := s.(counter := s.counter + 1);
        if Admits(s, size) then
          s'.(queuedBytes := s.queuedBytes + size, queue := s.queue + [Request(s.counter, size, deadline)],
          admitted := s.admitted + {s.counter})
        else Fire(s', s.counter, BUSY)
      case Pop =>
        s.(writer := Hand(s.queue[0]), queue := s.queue[1..], queuedBytes := s.queuedBytes - s.queue[0].size)
      case Register =>
        var r := s.writer.request;
        s.(pending := s.pending[r.id := r.deadline], writer := Writing(r))
      case Write(accepted) => s.(writer := if accepted then Idle else WriteFailed(s.writer.request))
      case Unregister =>
        var r := s.writer.request;
        s.(pending := s.pending - {r.id}, writer := Hand(r))
      case GiveUp => Fire(s.(writer := Idle), s.writer.request.id, UNAVAILABLE)
      case Reply(id, code) =>
        if id in s.pending then s.(pending := s.pending - {id}, taken := Take(s, {id}, code)) else s
      case Disconnect => s.(pending := map[], taken := Take(s, s.pending.Keys, UNAVAILABLE))
      case ExpirePending(now) =>
        s.(pending := s.pending - Due(s.pending, now), taken := Take(s, Due(s.pending, now), UNAVAILABLE))
      case ExpireQueue(now) =>
        var n := Stale(s.queue, now);
        s.(queue := s.queue[n..], queuedBytes := s.queuedBytes - Bytes(s.queue[..n]),
        taken := Take(s, Ids(s.queue[..n]), TIMED_OUT))
      case FireTaken(id, code) => Fire(s.(taken := s.taken - {(id, code)}), id, code)
      case Shutdown => s.(running := false)
  }

  function Run(s: State, steps: seq<Step>): State
    decreases |steps|
  {
    if steps == [] then s else Run(Apply(s, steps[0]), steps[1..])
  }

  // ----- capacity

  /** Requests in the writer's hand that are in no table. */
  function InHand(s: State): nat {
    if s.writer.Idle? || s.writer.request.id in s.pending then 0 else 1
  }

  predicate CapacityInv(s: State) {
    && s.queuedBytes == Bytes(s.queue) && s.queuedBytes <= MAX_BYTES
    && |s.queue| + |s.pending| + InHand(s) <= MAX_REQUESTS + 1
  }

  lemma {:induction false} BytesAppend(xs: seq<Request>, ys: seq<Request>)
    ensures Bytes(xs + ys) == Bytes(xs) + Bytes(ys)
  {
    if xs == [] {
      assert xs + ys == ys;
    } else {
      assert (xs + ys)[1..] == xs[1..] + ys;
      BytesAppend(xs[1..], ys);
    }
  }

  lemma FewerKeys(m: map<nat, int>, gone: set<nat>)
    ensures |m - gone| <= |m|
    ensures forall id | id in m && id in gone :: |m - gone| <= |m| - 1
  {
    var left := (m - gone).Keys;
    assert left <= m.Keys;
    SubsetSize(left, m.Keys);
    forall id | id in m && id in gone ensures |m - gone| <= |m| - 1 {
      SubsetSize(left, m.Keys - {id});
    }
  }

  lemma SubsetSize(a: set<nat>, b: set<nat>)
    requires a <= b
    ensures |a| <= |b|
  {
    assert b == a + (b - a);
  }

  lemma OneMoreKey(m: map<nat, int>, id: nat, d: int)
    ensures |m[id := d]| == if id in m then |m| else |m| + 1
  {
    assert m[id := d].Keys == m.Keys + {id};
  }

  lemma CapacitySend(s: State, size: nat, deadline: int)
    requires CapacityInv(s)
    ensures CapacityInv(Apply(s, Send(size, deadline)))
  {
    var r := Request(s.counter, size, deadline);
    BytesAppend(s.queue, [r]);
    assert [r][1..] == [];
  }

  lemma BytesSplit(queue: seq<Request>, n: nat)
    requires n <= |queue|
    ensures Bytes(queue) == Bytes(queue[..n]) + Bytes(queue[n..])
  {
    assert queue == queue[..n] + queue[n..];
    BytesAppend(queue[..n], queue[n..]);
  }

  lemma CapacityExpire(s: State, now: int)
    requires CapacityInv(s)
    ensures CapacityInv(Apply(s, ExpireQueue(now)))
  {
    BytesSplit(s.queue, Stale(s.queue, now));
  }

  lemma CapacityDisconnect(s: State)
    requires CapacityInv(s)
    ensures CapacityInv(Apply(s, Disconnect))
  {
    if s.writer != Idle && s.writer.request.id in s.pending {
      assert s.writer.request.id in s.pending.Keys;
    }
  }

  /** Dropping registrations frees at least the place that a request in the writer's hand now takes. */
  lemma CapacityDropped(s: State, s': State, gone: set<nat>)
    requires CapacityInv(s)
    requires s'.queue == s.queue && s'.queuedBytes == s.queuedBytes
    requires s'.pending == s.pending - gone || s'.pending == s.pending
    requires s'.writer.Idle? == s.writer.Idle? && (!s.writer.Idle? ==> s'.writer.request == s.writer.request)
    ensures CapacityInv(s')
  {
    FewerKeys(s.pending, gone);
  }

  lemma CapacityPop(s: State)
    requires CapacityInv(s)
    ensures CapacityInv(Apply(s, Pop))
  {
  }

  lemma CapacityWriter(s: State, step: Step)
    requires CapacityInv(s) && (step.Write? || step.GiveUp? || step.FireTaken? || step.Shutdown?)
    ensures CapacityInv(Apply(s, step))
  {
  }

  lemma CapacityRegister(s: State)
    requires CapacityInv(s)
    ensures CapacityInv(Apply(s, Register))
  {
    if Enabled(s, Register) {
      OneMoreKey(s.pending, s.writer.request.id, s.writer.request.deadline);
    }
  }

  lemma CapacityStep(s: State, step: Step)
    requires CapacityInv(s)
    ensures CapacityInv(Apply(s, step))
  {
    if Enabled(s, step) {
      match step
      case Send(size, deadline) => CapacitySend(s, size, deadline);
      case Pop => CapacityPop(s);
      case Register => CapacityRegister(s);
      case Unregister => CapacityDropped(s, Apply(s, step), {s.writer.request.id});
      case Reply(id, _) => CapacityDropped(s, Apply(s, step), {id});
      case ExpirePending(now) => CapacityDropped(s, Apply(s, step), Due(s.pending, now));
      case ExpireQueue(now) => CapacityExpire(s, now);
      case Disconnect => CapacityDisconnect(s);
      case Write(_) => CapacityWriter(s, step);
      case GiveUp => CapacityWriter(s, step);
      case FireTaken(_, _) => CapacityWriter(s, step);
      case Shutdown => CapacityWriter(s, step);
    }
  }

  // ----- callbacks

  /** Where an unfired callback may be. */
  predicate Held(s: State, id: nat) {
    || id in Ids(s.queue)
    || (s.writer != Idle && s.writer.request.id == id)
    || id in s.pending
    || exists t | t in s.taken :: t.0 == id
  }

  predicate Safe(s: State, id: nat) {
    id in s.fired || id in s.pending || exists t | t in s.taken :: t.0 == id
  }

  /** The history of callbacks names exactly the fired ones, each once. */
  predicate Logged(fired: set<nat>, log: seq<(nat, int)>) {
    && (forall i | 0 <= i < |log| :: log[i].0 in fired)
    && (forall id | id in fired :: exists i | 0 <= i < |log| :: log[i].0 == id)
    && (forall i, j | 0 <= i < |log| && 0 <= j < |log| && log[i].0 == log[j].0 :: i == j)
  }

  lemma LoggedMore(fired: set<nat>, log: seq<(nat, int)>, id: nat, code: int)
    requires Logged(fired, log) && id !in fired
    ensures Logged(fired + {id}, log + [(id, code)])
  {
    var log' := log + [(id, code)];
    assert log'[|log|].0 == id;
    forall x | x in fired + {id} ensures exists i | 0 <= i < |log'| :: log'[i].0 == x {
      if x != id {
        var i :| 0 <= i < |log| && log[i].0 == x;
        assert log'[i].0 == x;
      }
    }
  }

  /** Every id in use has been issued. */
  predicate Issued(s: State) {
    && (forall id | id in s.admitted :: id < s.counter)
    && (forall id | id in s.fired :: id < s.counter)
    && (forall r | r in s.queue :: r.id < s.counter)
    && (s.writer != Idle ==> s.writer.request.id < s.counter)
    && (forall id | id in s.pending :: id < s.counter)
    && (forall t | t in s.taken :: t.0 < s.counter)
  }

  predicate CallbackInv(s: State) {
    && (forall id | id in s.admitted :: id in s.fired || Held(s, id))
    && (s.writer.Writing? ==> Safe(s, s.writer.request.id))
    && (forall id | 0 <= id < s.counter :: id in s.admitted || id in s.fired)
    && Issued(s) && Logged(s.fired, s.log)
  }

  /** Taking callbacks out of a table under a lock keeps each of them held. */
  lemma TakeHolds(s: State, ids: set<nat>, code: int, id: nat)
    requires id in ids
    ensures exists t | t in Take(s, ids, code) :: t.0 == id
  {
    assert (id, code) in Take(s, ids, code);
  }

  /** What only moves callbacks between the tables loses none. */
  lemma MovedInv(s: State, s': State)
    requires CallbackInv(s)
    requires s'.counter == s.counter && s'.fired == s.fired && s'.admitted == s.admitted && s'.log == s.log
    requires Ids(s'.queue) <= Ids(s.queue) && s.taken <= s'.taken
    requires forall id | id in s'.pending :: id in s.pending || (s.writer != Idle && s.writer.request.id == id)
    requires s'.writer != Idle ==> s'.writer.request.id < s.counter
    requires forall t | t in s'.taken :: t.0 < s.counter
    requires forall id | Held(s, id) :: id in s.fired || Held(s', id)
    requires s'.writer.Writing? ==> Safe(s', s'.writer.request.id)
    ensures CallbackInv(s')
  {
    forall r | r in s'.queue ensures r.id < s.counter {
      assert r.id in Ids(s.queue);
    }
  }

  lemma QueueSplit(queue: seq<Request>, n: nat)
    requires n <= |queue|
    ensures Ids(queue) == Ids(queue[..n]) + Ids(queue[n..])
  {
    assert queue == queue[..n] + queue[n..];
  }

  /** Firing a callback that was just taken out of state `s`, leaving `m`. */
  lemma FireInv(s: State, m: State, id: nat, code: int)
    requires CallbackInv(s) && id < s.counter
    requires m.counter == s.counter && m.fired == s.fired && m.admitted == s.admitted && m.log == s.log
    requires m.queue == s.queue && m.pending == s.pending && m.taken <= s.taken
    requires m.writer == s.writer || m.writer == Idle
    requires forall x | x != id && Held(s, x) :: Held(m, x)
    requires m.writer.Writing? && m.writer.request.id != id ==> Safe(m, m.writer.request.id)
    ensures CallbackInv(Fire(m, id, code))
  {
    var s' := Fire(m, id, code);
    if id !in s.fired {
      LoggedMore(s.fired, s.log, id, code);
    }
    forall x | x in s'.admitted ensures x in s'.fired || Held(s', x) {
      assert Held(m, x) ==> Held(s', x);
    }
  }

  lemma AdmittedInv(s: State, size: nat, deadline: int)
    requires CallbackInv(s) && Admits(s, size)
    ensures CallbackInv(Apply(s, Send(size, deadline)))
  {
    var s' := Apply(s, Send(size, deadline));
    var r := Request(s.counter, size, deadline);
    assert s'.queue[|s.queue|] == r;
    assert r.id in Ids(s'.queue) && Ids(s.queue) <= Ids(s'.queue);
    assert forall x | Held(s, x) :: Held(s', x);
  }

  lemma RefusedInv(s: State, size: nat, deadline: int)
    requires CallbackInv(s) && !Admits(s, size)
    ensures CallbackInv(Apply(s, Send(size, deadline)))
  {
    var s' := Apply(s, Send(size, deadline));
    assert s.counter !in s.fired;
    LoggedMore(s.fired, s.log, s.counter, BUSY);
    assert forall x | Held(s, x) :: Held(s', x);
  }

  lemma TableInv(s: State, step: Step)
    requires CallbackInv(s) && Enabled(s, step)
    requires step.Reply? || step.Disconnect? || step.ExpirePending? || step.ExpireQueue?
    ensures CallbackInv(Apply(s, step))
  {
    var s' := Apply(s, step);
    match step
    case Reply(id, code) =>
      if id in s.pending {
        TakeHolds(s, {id}, code, id);
        MovedInv(s, s');
      }
    case Disconnect =>
      forall x | x in s.pending ensures exists t | t in s'.taken :: t.0 == x {
        TakeHolds(s, s.pending.Keys, UNAVAILABLE, x);
      }
      MovedInv(s, s');
    case ExpirePending(now) =>
      forall x | x in Due(s.pending, now) ensures exists t | t in s'.taken :: t.0 == x {
        TakeHolds(s, Due(s.pending, now), UNAVAILABLE, x);
      }
      MovedInv(s, s');
    case ExpireQueue(now) =>
      var n := Stale(s.queue, now);
      QueueSplit(s.queue, n);
      forall x | x in Ids(s.queue[..n]) ensures exists t | t in s'.taken :: t.0 == x {
        TakeHolds(s, Ids(s.queue[..n]), TIMED_OUT, x);
      }
      MovedInv(s, s');
  }

  lemma WriterInv(s: State, step: Step)
    requires CallbackInv(s) && Enabled(s, step)
    requires step.Pop? || step.Register? || step.Write? || step.Unregister?
    ensures CallbackInv(Apply(s, step))
  {
    var s' := Apply(s, step);
    match step
    case Pop =>
      QueueSplit(s.queue, 1);
      assert s.queue[0] in s.queue;
      assert Ids(s.queue[..1]) == {s.queue[0].id};
      MovedInv(s, s');
    case Register => MovedInv(s, s');
    case Write(_) => MovedInv(s, s');
    case Unregister => MovedInv(s, s');
  }

  lemma CallbackStep(s: State, step: Step)
    requires CallbackInv(s)
    ensures CallbackInv(Apply(s, step))
  {
    if Enabled(s, step) {
      match step
      case Send(size, deadline) =>
        if Admits(s, size) {
          AdmittedInv(s, size, deadline);
        } else {
          RefusedInv(s, size, deadline);
        }
      case GiveUp => FireInv(s, s.(writer := Idle), s.writer.request.id, UNAVAILABLE);
      case FireTaken(id, code) =>
        var m := s.(taken := s.taken - {(id, code)});
        forall t | t in s.taken && t.0 != id ensures t in m.taken {
        }
        FireInv(s, m, id, code);
      case Shutdown => MovedInv(s, s.(running := false));
      case Pop => WriterInv(s, step);
      case Register => WriterInv(s, step);
      case Write(_) => WriterInv(s, step);
      case Unregister => WriterInv(s, step);
      case _ => TableInv(s, step);
    }
  }

  lemma {:induction false} RunInv(s: State, steps: seq<Step>)
    requires CapacityInv(s) && CallbackInv(s)
    ensures CapacityInv(Run(s, steps)) && CallbackInv(Run(s, steps))
    decreases |steps|
  {
    if steps != [] {
      CapacityStep(s, steps[0]);
      CallbackStep(s, steps[0]);
      RunInv(Apply(s, steps[0]), steps[1..]);
    }
  }

  // ----- results

  /** In every state of every run: the byte budget is exact and never exceeded, and at most 513 requests
      are queued, registered or in the writer's hand. */
  lemma Bounded(steps: seq<Step>)
    ensures var s := Run(START, steps);
            && s.queuedBytes == Bytes(s.queue) && 0 <= s.queuedBytes <= MAX_BYTES
            && |s.queue| + |s.pending| + InHand(s) <= 513
  {
    RunInv(START, steps);
  }

  /** No admitted request is lost: until its callback has fired it is queued, in the writer's hand,
      registered, or held by a thread that is about to fire it. */
  lemma NoCallbackLost(steps: seq<Step>, id: nat)
    requires id in Run(START, steps).admitted && id !in Run(START, steps).fired
    ensures Held(Run(START, steps), id)
  {
    RunInv(START, steps);
  }

  /** No callback runs twice. */
  lemma AtMostOnce(steps: seq<Step>, i: nat, j: nat)
    requires i < j < |Run(START, steps).log|
    ensures Run(START, steps).log[i].0 != Run(START, steps).log[j].0
  {
    RunInv(START, steps);
  }

  /** When nothing is left in the tables, in the hand or in flight, every request ever sent, admitted or
      refused, has had its callback run exactly once. */
  lemma QuiescentExactlyOnce(steps: seq<Step>, id: nat)
    requires var s := Run(START, steps);
             s.queue == [] && s.pending == map[] && s.writer == Idle && s.taken == {} && id < s.counter
    ensures var log := Run(START, steps).log;
            exists i | 0 <= i < |log| :: log[i].0 == id && forall j | 0 <= j < |log| && log[j].0 == id :: j == i
  {
    RunInv(START, steps);
    var s := Run(START, steps);
    assert !Held(s, id);
    var i :| 0 <= i < |s.log| && s.log[i].0 == id;
  }

  /** Once the writer's Write has been accepted, its request is answered by the reader, a disconnect or
      a deadline: it cannot fall between the tables. */
  lemma AcceptedWriteIsTracked(steps: seq<Step>)
    requires Run(START, steps).writer.Writing?
    ensures var s := Run(START, steps);
            Safe(Apply(s, Write(true)), s.writer.request.id)
  {
    RunInv(START, steps);
  }

  // ----- what callers are told

  /** A request is admitted if and only if the stream is running, fewer than 512 requests are queued or
      registered, and the queue stays within 8 MiB; a refused one is told 429 at once. */
  lemma AdmittedExactlyWhen(steps: seq<Step>, size: nat, deadline: int)
    ensures var s := Run(START, steps);
            var s' := Apply(s, Send(size, deadline));
            && (s.counter in s'.admitted <==>
                  s.running && |s.queue| + |s.pending| < 512 && s.queuedBytes + size <= 8388608)
            && (s.counter in s'.admitted ==> s'.queue == s.queue + [Request(s.counter, size, deadline)] && s'.log == s.log)
            && (s.counter !in s'.admitted ==> s'.queue == s.queue && s'.log == s.log + [(s.counter, 429)])
  {
    RunInv(START, steps);
    AdmittedIssued(START, steps);
  }

  lemma {:induction false} AdmittedIssued(s: State, steps: seq<Step>)
    requires forall id | id in s.admitted :: id < s.counter
    ensures forall id | id in Run(s, steps).admitted :: id < Run(s, steps).counter
    decreases |steps|
  {
    if steps != [] {
      AdmittedIssued(Apply(s, steps[0]), steps[1..]);
    }
  }

  /** Requests are queued in the order in which they were sent. */
  predicate InSendOrder(queue: seq<Request>, next: nat) {
    && (forall i, k | 0 <= i < k < |queue| :: queue[i].id < queue[k].id)
    && (forall i | 0 <= i < |queue| :: queue[i].id < next)
  }

  lemma FrontDropped(queue: seq<Request>, n: nat, next: nat)
    requires InSendOrder(queue, next) && n <= |queue|
    ensures InSendOrder(queue[n..], next)
  {
  }

  lemma OneSent(queue: seq<Request>, r: Request)
    requires InSendOrder(queue, r.id)
    ensures InSendOrder(queue + [r], r.id + 1)
  {
  }

  lemma SendOrderStep(s: State, step: Step, s': State)
    requires InSendOrder(s.queue, s.counter) && s' == Apply(s, step)
    ensures InSendOrder(s'.queue, s'.counter)
  {
    match step
    case Send(size, deadline) => OneSent(s.queue, Request(s.counter, size, deadline));
    case Pop =>
      if Enabled(s, step) {
        FrontDropped(s.queue, 1, s.counter);
      }
    case ExpireQueue(now) => FrontDropped(s.queue, Stale(s.queue, now), s.counter);
    case _ => assert s'.queue == s.queue && s'.counter == s.counter;
  }

  lemma {:induction false} SendOrderRun(s: State, steps: seq<Step>)
    requires InSendOrder(s.queue, s.counter)
    ensures InSendOrder(Run(s, steps).queue, Run(s, steps).counter)
    decreases |steps|
  {
    if steps != [] {
      SendOrderStep(s, steps[0], Apply(s, steps[0]));
      SendOrderRun(Apply(s, steps[0]), steps[1..]);
    }
  }

  /** In every run the writer takes the oldest request and leaves the others queued. */
  lemma WriterTakesOldest(steps: seq<Step>)
    requires Enabled(Run(START, steps), Pop)
    ensures var s := Run(START, steps);
            var s' := Apply(s, Pop);
            && s'.writer.Hand? && s'.writer.request in s.queue
            && (forall r | r in s.queue && r != s'.writer.request :: r in s'.queue && s'.writer.request.id < r.id)
  {
    SendOrderRun(START, steps);
    var s := Run(START, steps);
    forall r | r in s.queue && r != s.queue[0] ensures r in s.queue[1..] && s.queue[0].id < r.id {
      var i :| 0 <= i < |s.queue| && s.queue[i] == r;
      assert s.queue[1..][i - 1] == r;
    }
  }

  /** A registered callback is told the code of the first reply for it, 503 when the stream is lost and 503 when
      its deadline passes; a queued one is told 504 when its deadline passes, and one that the writer gives up
      is told 503. */
  lemma CodesHandedOn(s: State, id: nat, code: int, now: int)
    requires id in s.pending
    ensures (id, code) in Apply(s, Reply(id, code)).taken && id !in Apply(s, Reply(id, code)).pending
    ensures (id, 503) in Apply(s, Disconnect).taken && id !in Apply(s, Disconnect).pending
    ensures if s.pending[id] <= now then (id, 503) in Apply(s, ExpirePending(now)).taken && id !in Apply(s, ExpirePending(now)).pending
            else id in Apply(s, ExpirePending(now)).pending && Apply(s, ExpirePending(now)).pending[id] == s.pending[id]
  {
    TakeHolds(s, {id}, code, id);
    TakeHolds(s, s.pending.Keys, UNAVAILABLE, id);
    if s.pending[id] <= now {
      TakeHolds(s, Due(s.pending, now), UNAVAILABLE, id);
    }
  }

  lemma QueueTimesOut(s: State, now: int)
    requires s.queue != [] && s.queue[0].deadline <= now
    ensures (s.queue[0].id, 504) in Apply(s, ExpireQueue(now)).taken && |Apply(s, ExpireQueue(now)).queue| < |s.queue|
  {
    var n := Stale(s.queue, now);
    assert s.queue[..n][0] == s.queue[0];
    TakeHolds(s, Ids(s.queue[..n]), TIMED_OUT, s.queue[0].id);
  }

  /** A callback that is fired for the first time is told exactly the code it was taken with. */
  lemma FiredAsTaken(s: State, id: nat, code: int)
    requires (id, code) in s.taken && id !in s.fired
    ensures Apply(s, FireTaken(id, code)).log == s.log + [(id, code)]
    ensures s.writer.Hand? && s.writer.request.id !in s.fired ==> Apply(s, GiveUp).log == s.log + [(s.writer.request.id, 503)]
  {
  }

  /** Codes are not made up: in every run a callback is told 429, 503, 504 or the code of a reply for it that was
      read. */
  predicate Sourced(id: nat, code: int, read: set<(nat, int)>) {
    code in {429, 503, 504} || (id, code) in read
  }

  function RepliesRead(steps: seq<Step>): set<(nat, int)> {
    set i | 0 <= i < |steps| && steps[i].Reply? :: (steps[i].id, steps[i].code)
  }

  predicate AllSourced(s: State, read: set<(nat, int)>) {
    && (forall t | t in s.taken :: Sourced(t.0, t.1, read))
    && (forall i | 0 <= i < |s.log| :: Sourced(s.log[i].0, s.log[i].1, read))
  }

  lemma SourcedStep(s: State, step: Step, read: set<(nat, int)>)
    requires AllSourced(s, read) && (step.Reply? ==> (step.id, step.code) in read)
    ensures AllSourced(Apply(s, step), read)
  {
  }

  lemma {:induction false} SourcedRun(s: State, steps: seq<Step>, read: set<(nat, int)>)
    requires AllSourced(s, read) && forall i | 0 <= i < |steps| && steps[i].Reply? :: (steps[i].id, steps[i].code) in read
    ensures AllSourced(Run(s, steps), read)
    decreases |steps|
  {
    if steps != [] {
      SourcedStep(s, steps[0], read);
      assert forall i | 0 <= i < |steps[1..]| :: steps[1..][i] == steps[i + 1];
      SourcedRun(Apply(s, steps[0]), steps[1..], read);
    }
  }

  lemma CodesAreSourced(steps: seq<Step>, i: nat)
    requires i < |Run(START, steps).log|
    ensures var (id, code) := Run(START, steps).log[i];
            code in {429, 503, 504} || exists k | 0 <= k < |steps| :: steps[k] == Reply(id, code)
  {
    SourcedRun(START, steps, RepliesRead(steps));
    assert Sourced(Run(START, steps).log[i].0, Run(START, steps).log[i].1, RepliesRead(steps));
  }

  /** A request that a connected stream takes, writes and gets a reply for has its callback told the code of the reply. */
  lemma HealthyRequestIsAnswered(s: State, size: nat, deadline: int, code: int)
    requires Issued(s) && s.writer == Idle && s.queue == [] && Admits(s, size)
    ensures var id := s.counter;
            var written := Apply(Apply(Apply(Apply(s, Send(size, deadline)), Pop), Register), Write(true));
            var s' := Apply(Apply(written, Reply(id, code)), FireTaken(id, code));
            && written.pending == s.pending[id := deadline] && written.writer == Idle && written.queue == []
            && s'.log == s.log + [(id, code)] && s'.pending == s.pending - {id} && s'.writer == Idle
  {
    SentAndWritten(s, size, deadline);
    var written := Apply(Apply(Apply(Apply(s, Send(size, deadline)), Pop), Register), Write(true));
    assert s.counter !in s.fired;
    ReplyIsFired(written, s.counter, code);
    assert s.pending[s.counter := deadline] - {s.counter} == s.pending - {s.counter};
  }

  lemma ReplyIsFired(s: State, id: nat, code: int)
    requires id in s.pending && id !in s.fired
    ensures var s' := Apply(Apply(s, Reply(id, code)), FireTaken(id, code));
            s'.log == s.log + [(id, code)] && s'.pending == s.pending - {id} && s'.writer == s.writer
  {
    TakeHolds(s, {id}, code, id);
  }

  lemma SentAndWritten(s: State, size: nat, deadline: int)
    requires s.writer == Idle && s.queue == [] && Admits(s, size)
    ensures var r := Request(s.counter, size, deadline);
            Apply(Apply(Apply(Apply(s, Send(size, deadline)), Pop), Register), Write(true)) ==
              s.(counter := s.counter + 1, admitted := s.admitted + {r.id}, pending := s.pending[r.id := deadline])
  {
    var r := Request(s.counter, size, deadline);
    assert s.queue + [r] == [r] && [r][1..] == [];
  }

  /** A failed write takes the registration back, so that the request can be tried again. */
  lemma FailedWriteIsTakenBack(s: State, r: Request)
    requires s.writer == Writing(r)
    ensures var s' := Apply(Apply(s, Write(false)), Unregister);
            s'.writer == Hand(r) && s'.pending == s.pending - {r.id} && s'.log == s.log && s'.taken == s.taken
    ensures Apply(Apply(Apply(Apply(s, Write(false)), Unregister), Register), Write(true)).writer == Idle
  {
  }

  /** After the shutdown of a stream no request is admitted any more. */
  lemma {:induction false} NothingAfterShutdown(s: State, steps: seq<Step>)
    ensures var s' := Run(Apply(s, Shutdown), steps);
            !s'.running && s'.admitted == s.admitted
    decreases |steps|
  {
    StoppedRun(Apply(s, Shutdown), steps);
  }

  lemma {:induction false} StoppedRun(s: State, steps: seq<Step>)
    requires !s.running
    ensures !Run(s, steps).running && Run(s, steps).admitted == s.admitted
    decreases |steps|
  {
    if steps != [] {
      StoppedRun(Apply(s, steps[0]), steps[1..]);
    }
  }

  /** Exactly the overdue front of the queue times out: what is left begins with a request that is not overdue. */
  lemma QueueKeepsTimely(s: State, now: int)
    ensures var s' := Apply(s, ExpireQueue(now));
            && (s'.queue != [] ==> s'.queue[0].deadline > now) && |s'.queue| <= |s.queue|
            && s'.queue == s.queue[|s.queue| - |s'.queue|..]
            && (forall i | 0 <= i < |s.queue| - |s'.queue| :: s.queue[i].deadline <= now)
  {
    StaleExactly(s.queue, now);
  }

  lemma {:induction false} StaleExactly(queue: seq<Request>, now: int)
    ensures var n := Stale(queue, now);
            (forall i | 0 <= i < n :: queue[i].deadline <= now) && (n < |queue| ==> queue[n].deadline > now)
    decreases |queue|
  {
    if queue != [] && queue[0].deadline <= now {
      StaleExactly(queue[1..], now);
      assert forall i | 0 < i < |queue| :: queue[i] == queue[1..][i - 1];
    }
  }

  // ----- the lock-held sections in the form of the source

  class StreamState {
    var queue: seq<Request>
    var queuedBytes: int
    var pending: map<nat, int>

    constructor ()
      ensures queue == [] && queuedBytes == 0 && pending == map[]
    {
      queue, queuedBytes, pending := [], 0, map[];
    }

    ghost predicate Shows(s: State)
      reads this
    {
      s.queue == queue && s.queuedBytes == queuedBytes && s.pending == pending
    }

    method SendToStream(id: nat, size: nat, deadline: int, running: bool, ghost s: State) returns (admitted: bool)
      requires Shows(s) && s.counter == id && s.running == running
      modifies this
      ensures Shows(Apply(s, Send(size, deadline)))
      ensures admitted == Admits(s, size)
    {
      admitted := running && |queue| + |pending| < MAX_REQUESTS && size <= MAX_BYTES - queuedBytes;
      if admitted {
        queuedBytes := queuedBytes + size;
        queue := queue + [Request(id, size, deadline)];
      }
    }

    /** Takes every registration whose deadline has passed, and only those. */
    method ExpireStreamPending(now: int) returns (expired: set<nat>)
      modifies this
      ensures expired == Due(old(pending), now)
      ensures pending == old(pending) - expired
      ensures queue == old(queue) && queuedBytes == old(queuedBytes)
    {
      expired := {};
      var todo := pending.Keys;
      while todo != {}
        invariant todo <= old(pending).Keys
        invariant expired == Due(old(pending), now) - todo
        invariant pending == old(pending) - expired
        invariant queue == old(queue) && queuedBytes == old(queuedBytes)
        decreases |todo|
      {
        var id :| id in todo;
        todo := todo - {id};
        if pending[id] <= now {
          pending := pending - {id};
          expired := expired + {id};
        }
      }
    }

    /** Drops the longest front of the queue whose deadlines have passed. */
    method ExpireSendQueue(now: int) returns (expired: seq<nat>)
      modifies this
      ensures var n := Stale(old(queue), now);
              && queue == old(queue)[n..] && queuedBytes == old(queuedBytes) - Bytes(old(queue)[..n])
              && |expired| == n && (forall i | 0 <= i < n :: expired[i] == old(queue)[i].id && old(queue)[i].deadline <= now)
              && (queue != [] ==> queue[0].deadline > now)
      ensures pending == old(pending)
    {
      expired := [];
      while queue != [] && queue[0].deadline <= now
        invariant |expired| <= |old(queue)| && queue == old(queue)[|expired|..]
        invariant Stale(old(queue), now) == |expired| + Stale(queue, now)
        invariant queuedBytes == old(queuedBytes) - Bytes(old(queue)[..|expired|])
        invariant forall i | 0 <= i < |expired| :: expired[i] == old(queue)[i].id && old(queue)[i].deadline <= now
        invariant pending == old(pending)
        decreases |queue|
      {
        ghost var n := |expired|;
        BytesAppend(old(queue)[..n], [queue[0]]);
        assert old(queue)[..n + 1] == old(queue)[..n] + [queue[0]];
        assert [queue[0]][1..] == [];
        queuedBytes := queuedBytes - queue[0].size;
        expired := expired + [queue[0].id];
        queue := queue[1..];
      }
    }
  }
}
