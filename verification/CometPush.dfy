/** What travels back from Comet to Job. */
module PushReply {
  datatype Reply = Reply(id: string, code: int, delivered: nat)
}

/** The push handlers of one Comet process: any number of stream and unary handlers run at once and
    share the ledger; each request is answered once. */
module CometPush {
  import opened PushLedger
  import opened PushReply

  const RETRY: int := 503

  /** A handler that owns an accepted request; `fanned` once frames have been handed out. */
  datatype Attempt = Attempt(id: string, fanned: bool)

  /** `completions`, `fanouts` and `replies` are history. A fan-out is recorded with the number of
      completions before it. */
  datatype Comet = Comet(ledger: Ledger, running: map<nat, Attempt>,
                         completions: seq<string>, fanouts: seq<(string, nat)>, replies: set<Reply>)

  datatype Step =
    | Arrive(handler: nat, id: string)
    | FanOut(handler: nat)
    | Unavailable(handler: nat)
    | Finish(handler: nat, delivered: nat)

  const START := Comet(Ledger({}, {}, []), map[], [], [], {})

  predicate Enabled(c: Comet, step: Step) {
    match step
    case Arrive(h, _) => h !in c.running
    case FanOut(h) => h in c.running && !c.running[h].fanned
    case Unavailable(h) => h in c.running && !c.running[h].fanned
    case Finish(h, _) => h in c.running
  }

  function Apply(c: Comet, step: Step): Comet {
    if !Enabled(c, step) then c
    else
      match step
      case Arrive(h, id) =>
        var (ledger', verdict) := Accept(c.ledger, id);
        (match verdict
         case Duplicate => c.(replies := c.replies + {Reply(id, 0, 0)})
         case Busy => c.(replies := c.replies + {Reply(id, RETRY, 0)})
         case Accepted => c.(ledger := ledger', running := c.running[h := Attempt(id, false)]))
      case FanOut(h) =>
        c.(running := c.running[h := c.running[h].(fanned := true)],
        fanouts := c.fanouts + [(c.running[h].id, |c.completions|)])
      case Unavailable(h) =>
        var id := c.running[h].id;
        c.(ledger := Forget(c.ledger, id), running := c.running - {h}, replies := c.replies + {Reply(id, RETRY, 0)})
      case Finish(h, n) =>
        var id := c.running[h].id;
        c.(ledger := Complete(c.ledger, id), running := c.running - {h},
        completions := if id == "" then c.completions else c.completions + [id],
        replies := c.replies + {Reply(id, 0, n)})
  }

  function Run(c: Comet, steps: seq<Step>): Comet
    decreases |steps|
  {
    if steps == [] then c else Run(Apply(c, steps[0]), steps[1..])
  }

  // ----- invariant

  /** Accepted requests are in flight, and no id is owned twice. */
  predicate Ownership(c: Comet) {
    && (forall h | h in c.running && c.running[h].id != "" :: c.running[h].id in c.ledger.inflight)
    && (forall g, h | g in c.running && h in c.running && g != h :: c.running[g].id == c.running[h].id ==> c.running[g].id == "")
  }

  /** Fan-out `i` has been completed after it happened, or its handler is still at work. */
  predicate Accounted(c: Comet, i: nat)
    requires i < |c.fanouts|
  {
    var (id, at) := c.fanouts[i];
    && at <= |c.completions|
    && (id == "" || id in c.completions[at..] || exists h | h in c.running :: c.running[h] == Attempt(id, true))
  }

  /** A request that is accepted and not yet fanned out was last fanned out long ago, if ever. */
  predicate LongAgo(c: Comet, i: nat)
    requires i < |c.fanouts|
  {
    forall h | h in c.running && c.running[h] == Attempt(c.fanouts[i].0, false) && c.fanouts[i].0 != "" ::
      c.fanouts[i].1 + WINDOW < |c.completions|
  }

  predicate Apart(c: Comet, i: nat, j: nat)
    requires i < j < |c.fanouts|
  {
    c.fanouts[i].0 == c.fanouts[j].0 && c.fanouts[i].0 != "" ==> c.fanouts[i].1 + WINDOW < c.fanouts[j].1
  }

  predicate Answered(c: Comet) {
    forall r | r in c.replies && r.code == 0 && r.id != "" :: r.id in c.completions
  }

  ghost predicate Inv(c: Comet) {
    && Valid(c.ledger) && c.ledger.order == Last(c.completions, WINDOW)
    && Ownership(c) && Answered(c)
    && (forall i: nat | i < |c.fanouts| :: Accounted(c, i) && LongAgo(c, i))
    && (forall i: nat, j: nat | i < j < |c.fanouts| :: Apart(c, i, j))
  }

  lemma ArriveInv(c: Comet, h: nat, id: string)
    requires Inv(c) && h !in c.running
    ensures Inv(Apply(c, Arrive(h, id)))
  {
    AcceptKeepsValid(c.ledger, id);
    var c' := Apply(c, Arrive(h, id));
    if Accept(c.ledger, id).1 == Duplicate {
      InLast(c.completions, WINDOW, id);
    }
    forall i: nat | i < |c.fanouts| ensures Accounted(c', i) && LongAgo(c', i) {
      assert Accounted(c, i) && LongAgo(c, i);
      var (id', at) := c.fanouts[i];
      if Accept(c.ledger, id).1 == Accepted && id' == id && id != "" {
        AcceptedLongAgo(c, i);
      }
      if g :| g in c.running && c.running[g] == Attempt(id', true) {
        assert c'.running[g] == Attempt(id', true);
      }
    }
    forall i: nat, j: nat | i < j < |c.fanouts| ensures Apart(c', i, j) {
      assert Apart(c, i, j);
    }
  }

  /** An id that is accepted again was last fanned out more than a window of completions ago. */
  lemma AcceptedLongAgo(c: Comet, i: nat)
    requires Inv(c) && i < |c.fanouts| && c.fanouts[i].0 != "" && Accept(c.ledger, c.fanouts[i].0).1 == Accepted
    ensures c.fanouts[i].1 + WINDOW < |c.completions|
  {
    var (id, at) := c.fanouts[i];
    AcceptKeepsValid(c.ledger, id);
    assert Accounted(c, i);
    assert !exists g | g in c.running :: c.running[g] == Attempt(id, true);
    var k: nat :| k < |c.completions[at..]| && c.completions[at..][k] == id;
    RecentInLast(c.completions, WINDOW, at + k);
  }

  lemma InLast(xs: seq<string>, n: nat, x: string)
    requires x in Last(xs, n)
    ensures x in xs
  {
  }

  lemma RecentInLast(xs: seq<string>, n: nat, k: nat)
    requires k < |xs|
    ensures |xs| <= k + n ==> xs[k] in Last(xs, n)
  {
    if n < |xs| <= k + n {
      assert Last(xs, n)[k - (|xs| - n)] == xs[k];
    }
  }

  lemma FanOutInv(c: Comet, h: nat)
    requires Inv(c) && h in c.running && !c.running[h].fanned
    ensures Inv(Apply(c, FanOut(h)))
  {
    var c' := Apply(c, FanOut(h));
    var id := c.running[h].id;
    forall i: nat | i < |c'.fanouts| ensures Accounted(c', i) && LongAgo(c', i) {
      if i < |c.fanouts| {
        assert Accounted(c, i) && LongAgo(c, i);
        if g :| g in c.running && c.running[g] == Attempt(c.fanouts[i].0, true) {
          assert c'.running[g] == c.running[g];
        }
      } else {
        assert c'.running[h] == Attempt(id, true);
      }
    }
    forall i: nat, j: nat | i < j < |c'.fanouts| ensures Apart(c', i, j) {
      if j < |c.fanouts| {
        assert Apart(c, i, j);
      } else {
        assert LongAgo(c, i);
      }
    }
  }

  lemma UnavailableInv(c: Comet, h: nat)
    requires Inv(c) && h in c.running && !c.running[h].fanned
    ensures Inv(Apply(c, Unavailable(h)))
  {
    var c' := Apply(c, Unavailable(h));
    forall i: nat | i < |c.fanouts| ensures Accounted(c', i) && LongAgo(c', i) {
      assert Accounted(c, i) && LongAgo(c, i);
      if g :| g in c.running && c.running[g] == Attempt(c.fanouts[i].0, true) {
        assert c'.running[g] == c.running[g];
      }
    }
    forall i: nat, j: nat | i < j < |c.fanouts| ensures Apart(c', i, j) {
      assert Apart(c, i, j);
    }
  }

  lemma FinishInv(c: Comet, h: nat, n: nat)
    requires Inv(c) && h in c.running
    ensures Inv(Apply(c, Finish(h, n)))
  {
    var c' := Apply(c, Finish(h, n));
    var id := c.running[h].id;
    if id != "" {
      CompleteKeepsWindow(c.ledger, id);
      LastAppend(c.completions, id, WINDOW);
    }
    assert Answered(c') by {
      assert id != "" ==> c'.completions[|c.completions|] == id;
    }
    forall i: nat | i < |c.fanouts| ensures Accounted(c', i) && LongAgo(c', i) {
      assert Accounted(c, i) && LongAgo(c, i);
      FinishAccounted(c, h, n, i);
    }
    forall i: nat, j: nat | i < j < |c.fanouts| ensures Apart(c', i, j) {
      assert Apart(c, i, j);
    }
  }

  lemma FinishAccounted(c: Comet, h: nat, n: nat, i: nat)
    requires h in c.running && i < |c.fanouts| && Accounted(c, i)
    ensures Accounted(Apply(c, Finish(h, n)), i)
  {
    var c' := Apply(c, Finish(h, n));
    var (id, at) := c.fanouts[i];
    if id != "" {
      if id in c.completions[at..] {
        var k :| 0 <= k < |c.completions[at..]| && c.completions[at..][k] == id;
        assert c'.completions[at..][k] == id;
      } else {
        var g :| g in c.running && c.running[g] == Attempt(id, true);
        if g == h {
          assert c'.completions[at..][|c.completions| - at] == id;
        } else {
          assert c'.running[g] == c.running[g];
        }
      }
    }
  }

  lemma LastAppend(xs: seq<string>, x: string, n: nat)
    requires n > 0
    ensures Last(Last(xs, n) + [x], n) == Last(xs + [x], n)
  {
    assert (xs + [x])[|xs| + 1 - |Last(xs + [x], n)|..] == Last(xs + [x], n);
  }

  lemma ApplyInv(c: Comet, step: Step)
    requires Inv(c)
    ensures Inv(Apply(c, step))
  {
    if Enabled(c, step) {
      match step
      case Arrive(h, id) => ArriveInv(c, h, id);
      case FanOut(h) => FanOutInv(c, h);
      case Unavailable(h) => UnavailableInv(c, h);
      case Finish(h, n) => FinishInv(c, h, n);
    }
  }

  lemma {:induction false} RunInv(c: Comet, steps: seq<Step>)
    requires Inv(c)
    ensures Inv(Run(c, steps))
    decreases |steps|
  {
    if steps != [] {
      ApplyInv(c, steps[0]);
      RunInv(Apply(c, steps[0]), steps[1..]);
    }
  }

  // ----- results

  /** At most one fan-out per window: however many handlers receive an id and whatever they answer, two
      fan-outs of one id are separated by more than WINDOW completions of requests. */
  lemma FanOutsFarApart(steps: seq<Step>, i: nat, j: nat)
    requires i < j < |Run(START, steps).fanouts|
    requires Run(START, steps).fanouts[i].0 == Run(START, steps).fanouts[j].0 != ""
    ensures Run(START, steps).fanouts[i].1 + WINDOW < Run(START, steps).fanouts[j].1
  {
    RunInv(START, steps);
    assert Apart(Run(START, steps), i, j);
  }

  /** A reply without error is only ever given for an id that has been completed, be it the owner's
      reply or the reply to a duplicate; while an owner is at work nobody else acknowledges for it. */
  lemma OkMeansCompleted(steps: seq<Step>, r: Reply)
    requires r in Run(START, steps).replies && r.code == 0 && r.id != ""
    ensures r.id in Run(START, steps).completions
  {
    RunInv(START, steps);
  }

  /** A failed attempt releases its own reservation and nothing else: the id can be accepted again, and
      no other owner is affected. */
  lemma FailureReleasesOnlyItself(steps: seq<Step>, h: nat)
    requires Enabled(Run(START, steps), Unavailable(h)) && Run(START, steps).running[h].id != ""
    ensures var c := Run(START, steps);
            var c' := Apply(c, Unavailable(h));
            && Accept(c'.ledger, c.running[h].id).1 == Accepted
            && (forall g | g in c.running && g != h :: g in c'.running && c'.running[g] == c.running[g] &&
                  (c.running[g].id != "" ==> c.running[g].id in c'.ledger.inflight))
            && c'.ledger.recent == c.ledger.recent
  {
    RunInv(START, steps);
    InflightBounded(START, steps);
    var c := Run(START, steps);
    var id := c.running[h].id;
    assert |c.ledger.inflight - {id}| == |c.ledger.inflight| - 1;
  }

  lemma RunOne(c: Comet, step: Step, rest: seq<Step>)
    ensures Run(c, [step] + rest) == Run(Apply(c, step), rest)
  {
    assert ([step] + rest)[1..] == rest;
  }

  predicate Fresh(c: Comet, h: nat, id: string) {
    && h !in c.running && id != ""
    && id !in c.ledger.order && id !in c.ledger.inflight && |c.ledger.inflight| < 100000
  }

  lemma FreshArrives(c: Comet, h: nat, id: string)
    requires Inv(c) && Fresh(c, h, id)
    ensures var c1 := Apply(c, Arrive(h, id));
            && c1.running == c.running[h := Attempt(id, false)]
            && c1.fanouts == c.fanouts && c1.completions == c.completions && c1.replies == c.replies
  {
    AcceptKeepsValid(c.ledger, id);
  }

  lemma AttemptFansOut(c: Comet, h: nat, id: string)
    requires h in c.running && c.running[h] == Attempt(id, false)
    ensures Apply(c, FanOut(h)) == c.(running := c.running[h := Attempt(id, true)], fanouts := c.fanouts + [(id, |c.completions|)])
  {
  }

  lemma AttemptFinishes(c: Comet, h: nat, id: string, n: nat)
    requires h in c.running && c.running[h] == Attempt(id, true) && id != ""
    ensures var c' := Apply(c, Finish(h, n));
            && c'.running == c.running - {h} && c'.fanouts == c.fanouts && c'.completions == c.completions + [id]
            && c'.replies == c.replies + {Reply(id, 0, n)}
  {
  }

  /** A request that is among the last to be completed is answered without error and nothing else happens. */
  lemma CompletedIsDuplicate(c: Comet, h: nat, id: string)
    requires Inv(c) && h !in c.running && id != "" && |c.completions| > 0 && c.completions[|c.completions| - 1] == id
    ensures Apply(c, Arrive(h, id)) == c.(replies := c.replies + {Reply(id, 0, 0)})
  {
    AcceptKeepsValid(c.ledger, id);
    RecentInLast(c.completions, WINDOW, |c.completions| - 1);
  }

  lemma RunThree(c: Comet, a: Step, b: Step, d: Step)
    ensures Run(c, [a, b, d]) == Apply(Apply(Apply(c, a), b), d)
  {
    RunOne(c, a, [b, d]);
    RunOne(Apply(c, a), b, [d]);
    RunOne(Apply(Apply(c, a), b), d, []);
    assert [a] + [b, d] == [a, b, d] && [b] + [d] == [b, d] && [d] + [] == [d];
  }

  /** A request that is neither in flight nor recent, with room in flight, is fanned out and answered without
      error, with the number of deliveries; from then on it is answered without error and not fanned out. */
  lemma FreshRequestIsPushed(steps: seq<Step>, h: nat, id: string, n: nat, again: nat)
    requires Fresh(Run(START, steps), h, id) && again !in Run(START, steps).running
    ensures var c := Run(START, steps);
            var c' := Run(c, [Arrive(h, id), FanOut(h), Finish(h, n)]);
            && c'.fanouts == c.fanouts + [(id, |c.completions|)] && Reply(id, 0, n) in c'.replies
            && c'.completions == c.completions + [id] && c'.running == c.running
            && Apply(c', Arrive(again, id)) == c'.(replies := c'.replies + {Reply(id, 0, 0)})
  {
    RunInv(START, steps);
    var c := Run(START, steps);
    var c1 := Apply(c, Arrive(h, id));
    var c2 := Apply(c1, FanOut(h));
    var c' := Apply(c2, Finish(h, n));
    RunThree(c, Arrive(h, id), FanOut(h), Finish(h, n));
    FreshArrives(c, h, id);
    AttemptFansOut(c1, h, id);
    AttemptFinishes(c2, h, id, n);
    assert c'.running == c.running;
    RunInv(c, [Arrive(h, id), FanOut(h), Finish(h, n)]);
    CompletedIsDuplicate(c', again, id);
  }

  /** A request that another handler is working on, or that finds no room, gets the retryable error 503 and
      changes nothing; so does one whose authorization is unavailable, which then is no longer in flight. */
  lemma BusyOrUnavailableIsRetried(steps: seq<Step>, h: nat, id: string)
    requires var c := Run(START, steps); id != "" && id !in c.ledger.order
    ensures var c := Run(START, steps);
            h !in c.running && (id in c.ledger.inflight || |c.ledger.inflight| >= 100000) ==>
              Apply(c, Arrive(h, id)) == c.(replies := c.replies + {Reply(id, 503, 0)})
    ensures var c := Run(START, steps);
            h in c.running && c.running[h] == Attempt(id, false) ==>
              var c' := Apply(c, Unavailable(h));
              && Reply(id, 503, 0) in c'.replies && id !in c'.ledger.inflight && h !in c'.running
              && c'.fanouts == c.fanouts && c'.completions == c.completions
  {
    RunInv(START, steps);
    AcceptKeepsValid(Run(START, steps).ledger, id);
  }

  lemma {:induction false} InflightBounded(c: Comet, steps: seq<Step>)
    requires |c.ledger.inflight| <= WINDOW
    ensures |Run(c, steps).ledger.inflight| <= WINDOW
    decreases |steps|
  {
    if steps != [] {
      var c' := Apply(c, steps[0]);
      assert |c'.ledger.inflight| <= WINDOW by {
        if Enabled(c, steps[0]) && (steps[0].Unavailable? || steps[0].Finish?) {
          var id := c.running[steps[0].handler].id;
          EvictInflight(Ledger(c.ledger.inflight - {id}, c.ledger.recent + {id}, c.ledger.order + [id]));
          SmallerSet(c.ledger.inflight - {id}, c.ledger.inflight);
        }
      }
      InflightBounded(c', steps[1..]);
    }
  }

  lemma {:induction false} EvictInflight(d: Ledger)
    ensures Evict(d).inflight == d.inflight
    decreases |d.order|
  {
    if |d.order| > WINDOW {
      EvictInflight(d.(recent := d.recent - {d.order[0]}, order := d.order[1..]));
    }
  }

  lemma {:induction false} SmallerSet(a: set<string>, b: set<string>)
    requires a <= b
    ensures |a| <= |b|
  {
    assert b == a + (b - a);
  }
}
