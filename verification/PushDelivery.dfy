/** End to end: Kafka redelivery and concurrent callers on the Job side, calls that the stream refuses, lost, late
    and repeated replies on the stream, unary fallback, and any number of handlers on the Comet side. */
module PushDelivery {
  import opened CometPush
  import opened PushLedger
  import opened JobStream
  import opened PushReply

  const UNARY_ATTEMPTS: nat := 3

  /** What ProcessPushRequest does after the stream: still on the stream, in the unary loop, returned. */
  datatype Outcome = OnStream | Unary(attempts: nat) | Reported(ok: bool)

  datatype System = System(job: Job, comet: Comet, outcomes: seq<Outcome>, unary: set<string>)

  datatype Step =
    | JobStep(job: JobStream.Step)
    | CometStep(comet: CometPush.Step)
    | StreamResult(call: nat)
    | UnarySent(call: nat)
    | UnaryReply(call: nat, reply: Reply)
    | UnaryFailed(call: nat)
    | NoStub(call: nat)

  function Begin(queueMax: int): System {
    System(Start(queueMax), START, [], {})
  }

  predicate Enabled(s: System, step: Step) {
    match step
    case JobStep(js) => Allowed(s.comet.replies, js)
    // Comet is only called with ids that Job wrote to the stream or sent in a unary call.
    case CometStep(cs) => cs.Arrive? ==> cs.id in s.job.sent + s.unary
    case StreamResult(c) => c < |s.job.callers| && c < |s.outcomes| && s.outcomes[c] == OnStream && s.job.callers[c].Returned?
    case UnarySent(c) => c < |s.outcomes| && c < |s.job.ids| && s.outcomes[c].Unary?
    case UnaryReply(c, r) =>
      c < |s.outcomes| && c < |s.job.ids| && s.outcomes[c].Unary? && r in s.comet.replies && r.id == s.job.ids[c]
    case UnaryFailed(c) => c < |s.outcomes| && s.outcomes[c].Unary?
    case NoStub(c) => c < |s.outcomes| && s.outcomes[c] == Unary(0)
  }

  function NextAttempt(o: Outcome): Outcome
    requires o.Unary?
  {
    if o.attempts + 1 < UNARY_ATTEMPTS then Unary(o.attempts + 1) else Reported(false)
  }

  function Apply(s: System, step: Step): System {
    if !Enabled(s, step) then s
    else
      match step
      case JobStep(js) =>
        var job' := JobStream.Apply(s.job, js);
        s.(job := job', outcomes := if |job'.ids| > |s.job.ids| then s.outcomes + [OnStream] else s.outcomes)
      case CometStep(cs) => s.(comet := CometPush.Apply(s.comet, cs))
      case StreamResult(c) => s.(outcomes := s.outcomes[c := if s.job.callers[c].ok then Reported(true) else Unary(0)])
      case UnarySent(c) => s.(unary := s.unary + {s.job.ids[c]})
      case UnaryReply(c, r) => s.(outcomes := s.outcomes[c := if r.code == 0 then Reported(true) else NextAttempt(s.outcomes[c])])
      case UnaryFailed(c) => s.(outcomes := s.outcomes[c := NextAttempt(s.outcomes[c])])
      case NoStub(c) => s.(outcomes := s.outcomes[c := Reported(false)])
  }

  function Run(s: System, steps: seq<Step>): System
    decreases |steps|
  {
    if steps == [] then s else Run(Apply(s, steps[0]), steps[1..])
  }

  predicate Confirmed(s: System, c: nat)
    requires c < |s.outcomes| && c < |s.job.ids|
  {
    s.outcomes[c] == Reported(true) ==> exists r | r in s.comet.replies :: r.id == s.job.ids[c] && r.code == 0
  }

  ghost predicate SystemInv(s: System) {
    && JobStream.Inv(s.job, s.comet.replies) && CometPush.Inv(s.comet)
    && |s.outcomes| == |s.job.ids|
    && (forall c: nat | c < |s.outcomes| :: Confirmed(s, c))
    && (forall id | id in s.job.ids :: id != "")
  }

  lemma RepliesGrow(c: Comet, step: CometPush.Step)
    ensures c.replies <= CometPush.Apply(c, step).replies
  {
  }

  lemma JobStepInv(s: System, js: JobStream.Step)
    requires SystemInv(s) && Enabled(s, JobStep(js))
    ensures SystemInv(Apply(s, JobStep(js)))
  {
    var s' := Apply(s, JobStep(js));
    StepInv(s.job, s.comet.replies, js);
    forall c: nat | c < |s'.outcomes| ensures Confirmed(s', c) {
      if c < |s.outcomes| {
        assert Confirmed(s, c);
      }
    }
  }

  lemma CometStepInv(s: System, cs: CometPush.Step)
    requires SystemInv(s) && Enabled(s, CometStep(cs))
    ensures SystemInv(Apply(s, CometStep(cs)))
  {
    var s' := Apply(s, CometStep(cs));
    ApplyInv(s.comet, cs);
    RepliesGrow(s.comet, cs);
    MoreReplies(s.job, s.comet.replies, s'.comet.replies);
    forall c: nat | c < |s'.outcomes| ensures Confirmed(s', c) {
      assert Confirmed(s, c);
    }
  }

  lemma CallStepInv(s: System, step: Step)
    requires SystemInv(s) && Enabled(s, step) && !step.JobStep? && !step.CometStep?
    ensures SystemInv(Apply(s, step))
  {
    var s' := Apply(s, step);
    if step.StreamResult? && s.job.callers[step.call].ok {
      TrueIsBacked(s.job, s.comet.replies, step.call);
    }
    forall c: nat | c < |s'.outcomes| ensures Confirmed(s', c) {
      assert Confirmed(s, c);
    }
  }

  lemma {:induction false} RunInv(s: System, steps: seq<Step>)
    requires SystemInv(s)
    ensures SystemInv(Run(s, steps))
    decreases |steps|
  {
    if steps != [] {
      var step := steps[0];
      if Enabled(s, step) {
        match step
        case JobStep(js) => JobStepInv(s, js);
        case CometStep(cs) => CometStepInv(s, cs);
        case _ => CallStepInv(s, step);
      }
      RunInv(Apply(s, step), steps[1..]);
    }
  }

  /** Job reports success for a request only if Comet completed that request id. */
  lemma SuccessMeansCompleted(queueMax: int, steps: seq<Step>, c: nat)
    requires c < |Run(Begin(queueMax), steps).outcomes|
    requires Run(Begin(queueMax), steps).outcomes[c] == Reported(true)
    ensures var s := Run(Begin(queueMax), steps);
            c < |s.job.ids| && s.job.ids[c] in s.comet.completions
  {
    RunInv(Begin(queueMax), steps);
    var s := Run(Begin(queueMax), steps);
    assert Confirmed(s, c);
    assert s.job.ids[c] in s.job.ids;
  }

  /** Frames for one request id are fanned out at most once per window, through redelivery, timeouts,
      late replies, reconnects and the unary fallback. */
  lemma FannedOutOncePerWindow(queueMax: int, steps: seq<Step>, i: nat, j: nat)
    requires i < j < |Run(Begin(queueMax), steps).comet.fanouts|
    requires var f := Run(Begin(queueMax), steps).comet.fanouts; f[i].0 == f[j].0 != ""
    ensures var f := Run(Begin(queueMax), steps).comet.fanouts; f[i].1 + WINDOW < f[j].1
  {
    RunInv(Begin(queueMax), steps);
    assert Apart(Run(Begin(queueMax), steps).comet, i, j);
  }

  lemma RunOne(s: System, step: Step, rest: seq<Step>)
    ensures Run(s, [step] + rest) == Run(Apply(s, step), rest)
  {
    assert ([step] + rest)[1..] == rest;
  }

  /** A call that has returned from the stream is reported as a success if it returned true, and goes on to the
      unary calls if not. */
  lemma StreamFirst(s: System, c: nat)
    requires c < |s.job.callers| && c < |s.outcomes| && s.outcomes[c] == OnStream && s.job.callers[c].Returned?
    ensures var s' := Apply(s, StreamResult(c));
            |s'.outcomes| == |s.outcomes| && (if s.job.callers[c].ok then s'.outcomes[c] == Reported(true) else s'.outcomes[c].Unary?)
  {
  }

  /** A unary reply without error makes the call a success, at any attempt. */
  lemma UnarySucceeds(s: System, c: nat, r: Reply)
    requires c < |s.outcomes| && c < |s.job.ids| && s.outcomes[c].Unary?
    requires r in s.comet.replies && r.id == s.job.ids[c] && r.code == 0
    ensures var s' := Apply(s, UnaryReply(c, r)); c < |s'.outcomes| && s'.outcomes[c] == Reported(true)
  {
  }

  /** A call that the stream did not deliver fails exactly at its third failed unary attempt. */
  lemma ThreeUnaryAttempts(s: System, c: nat)
    requires c < |s.job.callers| && c < |s.outcomes| && s.outcomes[c] == OnStream && s.job.callers[c] == Returned(false)
    ensures var two := Run(s, [StreamResult(c), UnaryFailed(c), UnaryFailed(c)]);
            && c < |two.outcomes| && two.outcomes[c].Unary?
            && var three := Run(two, [UnaryFailed(c)]);
            c < |three.outcomes| && three.outcomes[c] == Reported(false)
  {
    var s1 := Apply(s, StreamResult(c));
    var s2 := Apply(s1, UnaryFailed(c));
    RunOne(s, StreamResult(c), [UnaryFailed(c), UnaryFailed(c)]);
    RunOne(s1, UnaryFailed(c), [UnaryFailed(c)]);
    RunOne(s2, UnaryFailed(c), []);
    assert [StreamResult(c)] + [UnaryFailed(c), UnaryFailed(c)] == [StreamResult(c), UnaryFailed(c), UnaryFailed(c)];
    assert [UnaryFailed(c)] + [UnaryFailed(c)] == [UnaryFailed(c), UnaryFailed(c)];
    assert [UnaryFailed(c)] + [] == [UnaryFailed(c)];
    RunOne(Apply(s2, UnaryFailed(c)), UnaryFailed(c), []);
  }

  /** A reply with an error counts as a failed attempt, and without a stub there is none. */
  lemma ErrorRepliesCount(s: System, c: nat, r: Reply)
    requires c < |s.outcomes| && c < |s.job.ids| && s.outcomes[c].Unary? && r in s.comet.replies && r.id == s.job.ids[c]
    ensures r.code != 0 ==> Apply(s, UnaryReply(c, r)) == Apply(s, UnaryFailed(c))
    ensures s.outcomes[c] == Unary(0) ==> Apply(s, NoStub(c)).outcomes == s.outcomes[c := Reported(false)]
  {
  }

  /** What one unary call brings about: Comet is called, the handler finishes, and its reply is reported. */
  function UnaryRound(c: nat, h: nat, id: string, n: nat): seq<Step> {
    [UnarySent(c), CometStep(Arrive(h, id)), CometStep(FanOut(h)), CometStep(Finish(h, n)), UnaryReply(c, Reply(id, 0, n))]
  }

  lemma RunFive(s: System, a: Step, b: Step, c: Step, d: Step, e: Step)
    ensures Run(s, [a, b, c, d, e]) == Apply(Apply(Apply(Apply(Apply(s, a), b), c), d), e)
  {
    RunOne(s, a, [b, c, d, e]);
    RunOne(Apply(s, a), b, [c, d, e]);
    RunOne(Apply(Apply(s, a), b), c, [d, e]);
    RunOne(Apply(Apply(Apply(s, a), b), c), d, [e]);
    RunOne(Apply(Apply(Apply(Apply(s, a), b), c), d), e, []);
    assert [a, b, c, d, e] == [a] + [b, c, d, e] && [b, c, d, e] == [b] + [c, d, e] && [c, d, e] == [c] + [d, e];
    assert [d, e] == [d] + [e] && [e] == [e] + [];
  }

  /** Whatever happened before, a request that fell back to the unary call, is fresh at Comet and is handled there is
      fanned out and reported as a success. */
  lemma UnaryFallbackDelivers(s: System, c: nat, h: nat, n: nat)
    requires SystemInv(s) && c < |s.outcomes| && s.outcomes[c].Unary? && Fresh(s.comet, h, s.job.ids[c])
    ensures var id, s' := s.job.ids[c], Run(s, UnaryRound(c, h, s.job.ids[c], n));
            && s'.comet.fanouts == s.comet.fanouts + [(id, |s.comet.completions|)]
            && s'.comet.completions == s.comet.completions + [id]
            && c < |s'.outcomes| && s'.outcomes[c] == Reported(true)
  {
    var id := s.job.ids[c];
    var s1 := Apply(s, UnarySent(c));
    var s2 := Apply(s1, CometStep(Arrive(h, id)));
    var s3 := Apply(s2, CometStep(FanOut(h)));
    var s4 := Apply(s3, CometStep(Finish(h, n)));
    RunFive(s, UnarySent(c), CometStep(Arrive(h, id)), CometStep(FanOut(h)), CometStep(Finish(h, n)), UnaryReply(c, Reply(id, 0, n)));
    FreshArrives(s.comet, h, id);
    AttemptFansOut(s2.comet, h, id);
    AttemptFinishes(s3.comet, h, id, n);
  }

  /** A call that the stream delivered to Comet and that was answered there without error is reported as a success. */
  lemma StreamDelivers(s: System, r: Reply)
    requires SystemInv(s) && s.job.reader.Reading? && r in s.comet.replies && r.id in s.job.pending && r.code == 0
    requires var c := s.job.pending[r.id].cell;
             c < |s.outcomes| && s.outcomes[c] == OnStream && c < |s.job.cells| && !s.job.cells[c].done && s.job.callers[c] == Waiting
    ensures var c := s.job.pending[r.id].cell;
            var s' := Run(s, [JobStep(Read(r)), JobStep(Deliver), JobStep(Wake(c)), StreamResult(c)]);
            c < |s'.outcomes| && s'.outcomes[c] == Reported(true)
  {
    var c := s.job.pending[r.id].cell;
    var s1 := Apply(s, JobStep(Read(r)));
    var s2 := Apply(s1, JobStep(Deliver));
    var s3 := Apply(s2, JobStep(Wake(c)));
    RunOne(s, JobStep(Read(r)), [JobStep(Deliver), JobStep(Wake(c)), StreamResult(c)]);
    RunOne(s1, JobStep(Deliver), [JobStep(Wake(c)), StreamResult(c)]);
    RunOne(s2, JobStep(Wake(c)), [StreamResult(c)]);
    RunOne(s3, StreamResult(c), []);
    assert [JobStep(Read(r))] + [JobStep(Deliver), JobStep(Wake(c)), StreamResult(c)] ==
           [JobStep(Read(r)), JobStep(Deliver), JobStep(Wake(c)), StreamResult(c)];
    assert [JobStep(Deliver)] + [JobStep(Wake(c)), StreamResult(c)] == [JobStep(Deliver), JobStep(Wake(c)), StreamResult(c)];
    assert [JobStep(Wake(c))] + [StreamResult(c)] == [JobStep(Wake(c)), StreamResult(c)];
    assert [StreamResult(c)] + [] == [StreamResult(c)];
    ReadDeliverWake(s.job, r);
  }

  lemma ReadDeliverWake(j: Job, r: Reply)
    requires NamesInv(j) && j.reader.Reading? && r.id in j.pending && r.code == 0
    requires var c := j.pending[r.id].cell; c < |j.cells| && c < |j.callers| && !j.cells[c].done && j.callers[c] == Waiting
    ensures var c := j.pending[r.id].cell;
            var j' := JobStream.Apply(JobStream.Apply(JobStream.Apply(j, Read(r)), Deliver), Wake(c));
            |j'.ids| == |j.ids| && c < |j'.callers| && j'.callers[c] == Returned(true)
  {
  }

  /** Once reported, a result is final, and a call never reports success after it has reported failure. */
  lemma {:induction false} ReportIsFinal(s: System, steps: seq<Step>, c: nat)
    requires c < |s.outcomes| && s.outcomes[c].Reported?
    ensures c < |Run(s, steps).outcomes| && Run(s, steps).outcomes[c] == s.outcomes[c]
    decreases |steps|
  {
    if steps != [] {
      ReportIsFinal(Apply(s, steps[0]), steps[1..], c);
    }
  }
}
