/** Crash, restart and replay: a consumer group is a chain of sessions, each of which resumes from the
    committed offsets and may end anywhere. */
module KafkaSessions {
  import opened KafkaBroker
  import opened KafkaConsumer
  import KafkaBatch
  import KafkaControl

  /** A crash is a session that simply ends: a script, a list of rounds or a list of steps of any
      length. A crash while a batch is being handled is the optional unfinished last round. A crash
      after a record was settled and before its commit leaves the broker as a refused commit does. */
  datatype Session =
    | OneRecord(options: Options, script: seq<Poll>)
    | Batches(options: Options, rounds: seq<KafkaBatch.Round>, unfinished: seq<KafkaBatch.Round>)
    | Controls(options: Options, steps: seq<KafkaControl.Step>)

  /** The session starts from broker `b` and leaves broker `b'`. Only the configurations that promise
      durability: a dead-letter topic, parallel batches, or the control lane. */
  ghost predicate SessionRun(session: Session, b: Broker, b': Broker) {
    match session
    case OneRecord(o, script) =>
      && o.hasDeadLetter && !o.autoCommit && Fetched(b.committed, Records(script))
      && b' == Loop(o, Shared(true, false, b), script).broker
    case Batches(o, rounds, unfinished) =>
      && o.workers > 1 && KafkaBatch.Rounds(o, Shared(true, false, b), b.committed, rounds)
      && (var s := KafkaBatch.BatchLoop(o, Shared(true, false, b), b.committed, rounds);
          if unfinished == [] then b' == s.broker
          else
            var r := unfinished[0];
            && KafkaBatch.InBatch(r.batch, r.jobs)
            && b' == KafkaBatch.Interleave(o, r.batch, r.jobs, KafkaBatch.Start(r.jobs, s), r.steps).shared.broker)
    case Controls(o, steps) =>
      o.hasControls && b' == KafkaControl.Run(o, b.committed, KafkaControl.Begin(b), steps).broker
  }

  /** All three loops, in every interleaving and cut off at any point, implement the one abstract
      consumer that commits only a durable prefix. */
  lemma SessionRefines(session: Session, b: Broker, b': Broker)
    requires SessionRun(session, b, b') && DurablePrefix(b)
    ensures Reaches(b, b')
  {
    var s := Shared(true, false, b);
    match session
    case OneRecord(o, script) =>
      DurableLoopRefines(o, s, b.committed, script);
    case Batches(o, rounds, unfinished) =>
      KafkaBatch.BatchLoopRefines(o, s, b.committed, rounds);
      if unfinished != [] {
        var end, r := KafkaBatch.BatchLoop(o, s, b.committed, rounds), unfinished[0];
        KafkaBatch.LanesReach(o, r.batch, r.jobs, KafkaBatch.Start(r.jobs, end), r.steps);
        ReachesTrans(b, end.broker, b');
      }
    case Controls(o, steps) =>
      KafkaControl.BeginInv(o, b);
      KafkaControl.ControlRefines(o, b.committed, KafkaControl.Begin(b), steps);
  }

  /** At-least-once across any number of crashes and replays: at every point of the chain, every record
      below a committed offset was handled or dead-lettered, and offsets never move back. */
  lemma {:induction false} ReplayIsDurable(sessions: seq<Session>, brokers: seq<Broker>, n: nat)
    requires |brokers| == |sessions| + 1 && n <= |sessions|
    requires forall i | 0 <= i < |sessions| :: SessionRun(sessions[i], brokers[i], brokers[i + 1])
    requires DurablePrefix(brokers[0])
    ensures DurablePrefix(brokers[n]) && Reaches(brokers[0], brokers[n])
    ensures brokers[0].settled <= brokers[n].settled
    ensures forall p: nat :: At(brokers[0].committed, p) <= At(brokers[n].committed, p)
  {
    if n == 0 {
      ReachesRefl(brokers[0]);
    } else {
      ReplayIsDurable(sessions, brokers, n - 1);
      SessionRefines(sessions[n - 1], brokers[n - 1], brokers[n]);
      ReachesTrans(brokers[0], brokers[n - 1], brokers[n]);
      ReachesSafe(brokers[0], brokers[n]);
    }
  }
}
