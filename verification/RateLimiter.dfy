/** Token buckets filled lazily: one bucket per scene and key, brought up to date when it is used. Times and
    tokens are real numbers; a time is a reading of the steady clock in seconds. */
module RateLimiter {
  import opened Basics

  datatype Config = Config(
    singleRate: real, singleBurst: real,
    groupRate: real, groupBurst: real,
    broadcastRate: real, broadcastBurst: real)

  datatype Rule = Rule(rate: real, burst: real)

  /** A bucket whose last refill is at reading 0 counts as never used. */
  datatype Bucket = Bucket(tokens: real, lastRefill: real)

  datatype Call = Call(scene: string, key: string, now: real)

  const NEW_BUCKET := Bucket(0.0, 0.0)

  function Min(x: real, y: real): real {
    if y < x then y else x
  }

  function RuleFor(config: Config, scene: string): Rule {
    if scene == "single" then Rule(config.singleRate, config.singleBurst)
    else if scene == "broadcast" then Rule(config.broadcastRate, config.broadcastBurst)
    else Rule(config.groupRate, config.groupBurst)
  }

  predicate Open(rule: Rule) {
    rule.rate > 0.0 && rule.burst > 0.0
  }

  function BucketKey(scene: string, key: string): string {
    scene + ":" + key
  }

  /** What a rate adds between two times. */
  type Earning = (real, real, real) -> real

  function Earned(rate: real, start: real, end: real): real {
    (end - start) * rate
  }

  /** All that the proofs about buckets use of Earned. */
  ghost predicate Additive(earn: Earning) {
    && (forall rate, a, b, c :: earn(rate, a, b) + earn(rate, b, c) == earn(rate, a, c))
    && (forall rate, a, b :: rate > 0.0 && a <= b ==> earn(rate, a, b) >= 0.0)
  }

  lemma EarnedAdditive()
    ensures Additive(Earned)
  {
    forall rate: real, a: real, b: real, c: real
      ensures Earned(rate, a, b) + Earned(rate, b, c) == Earned(rate, a, c)
    {
      assert (b - a) * rate + (c - b) * rate == (c - a) * rate;
    }
  }

  function Lookup(buckets: map<string, Bucket>, k: string): Bucket {
    if k in buckets then buckets[k] else NEW_BUCKET
  }

  /** The tokens a bucket holds at a time, had it been brought up to date. */
  function Level(earn: Earning, rule: Rule, b: Bucket, t: real): real {
    if b.lastRefill == 0.0 then rule.burst else Min(rule.burst, b.tokens + earn(rule.rate, b.lastRefill, t))
  }

  predicate Admits(earn: Earning, config: Config, buckets: map<string, Bucket>, c: Call) {
    var rule := RuleFor(config, c.scene);
    Open(rule) && Level(earn, rule, Lookup(buckets, BucketKey(c.scene, c.key)), c.now) >= 1.0
  }

  function After(earn: Earning, config: Config, buckets: map<string, Bucket>, c: Call): map<string, Bucket> {
    var rule, k := RuleFor(config, c.scene), BucketKey(c.scene, c.key);
    if !Open(rule) then buckets
    else
      var level := Level(earn, rule, Lookup(buckets, k), c.now);
      buckets[k := Bucket(if level < 1.0 then level else level - 1.0, c.now)]
  }

  class SceneRateLimiter {
    const config: Config
    var buckets: map<string, Bucket>

    constructor (config: Config)
      ensures this.config == config && buckets == map[]
    {
      this.config := config;
      buckets := map[];
    }

    method Allow(scene: string, key: string, now: real) returns (ok: bool)
      modifies this
      ensures ok == Admits(Earned, config, old(buckets), Call(scene, key, now))
      ensures buckets == After(Earned, config, old(buckets), Call(scene, key, now))
    {
      ghost var was := buckets;
      var rule := RuleFor(config, scene);
      if rule.rate <= 0.0 || rule.burst <= 0.0 {
        return false;
      }
      var k := BucketKey(scene, key);
      if k !in buckets {
        buckets := buckets[k := NEW_BUCKET];
      }
      var bucket := buckets[k];
      if bucket.lastRefill == 0.0 {
        bucket := Bucket(rule.burst, now);
      }
      var elapsed := now - bucket.lastRefill;
      bucket := Bucket(Min(rule.burst, bucket.tokens + elapsed * rule.rate), now);
      assert bucket.tokens == Level(Earned, rule, Lookup(was, k), now);
      if bucket.tokens < 1.0 {
        buckets := buckets[k := bucket];
        assert buckets == was[k := bucket];
        return false;
      }
      bucket := bucket.(tokens := bucket.tokens - 1.0);
      buckets := buckets[k := bucket];
      assert buckets == was[k := bucket];
      return true;
    }
  }

  // ----- runs: any calls, on any scenes and keys, one after the other

  function Run(earn: Earning, config: Config, calls: seq<Call>): map<string, Bucket> {
    if calls == [] then map[]
    else After(earn, config, Run(earn, config, calls[..|calls| - 1]), calls[|calls| - 1])
  }

  function Granted(earn: Earning, config: Config, calls: seq<Call>, k: string): nat {
    if calls == [] then 0
    else
      var before, c := calls[..|calls| - 1], calls[|calls| - 1];
      Granted(earn, config, before, k) +
        if BucketKey(c.scene, c.key) == k && Admits(earn, config, Run(earn, config, before), c) then 1 else 0
  }

  /** No reading is 0. Readings may come in any order: a caller reads the clock before it gets the lock. */
  predicate Positive(calls: seq<Call>) {
    forall i | 0 <= i < |calls| :: calls[i].now > 0.0
  }

  /** All calls that use bucket k are subject to the same rule. */
  predicate OneRule(config: Config, calls: seq<Call>, k: string, rule: Rule) {
    forall c | c in calls :: BucketKey(c.scene, c.key) == k ==> RuleFor(config, c.scene) == rule
  }

  lemma Shorter(config: Config, calls: seq<Call>, k: string, rule: Rule)
    requires Positive(calls) && OneRule(config, calls, k, rule) && calls != []
    ensures Positive(calls[..|calls| - 1]) && OneRule(config, calls[..|calls| - 1], k, rule)
    ensures calls[|calls| - 1] in calls
  {
  }

  // ----- how many calls a bucket admits

  /** The tokens there would be at a time if no burst limit applied until then; the time may lie before the
      last refill. */
  function Ahead(earn: Earning, rule: Rule, b: Bucket, t: real): real {
    b.tokens + earn(rule.rate, b.lastRefill, t)
  }

  /** Some call from the i-th on used bucket k. */
  predicate Used(calls: seq<Call>, k: string, i: nat) {
    exists j | i <= j < |calls| :: BucketKey(calls[j].scene, calls[j].key) == k
  }

  /** What calls have spent since some call in the window, together with what the bucket has ahead, is at most
      what the window allows; and a bucket that has admitted a call in the window is not overdrawn at its end. */
  predicate InBudget(earn: Earning, rule: Rule, b: Bucket, used: bool, spent: real, start: real, end: real) {
    if used then
      && b.lastRefill > 0.0
      && spent + Ahead(earn, rule, b, end) <= rule.burst + earn(rule.rate, start, end)
      && (spent > 0.0 ==> Ahead(earn, rule, b, end) >= 0.0)
    else spent == 0.0
  }

  /** One call on the bucket, whether or not its reading is earlier than the last one. */
  lemma CallBudget(earn: Earning, rule: Rule, b: Bucket, used: bool, spent: real, now: real, start: real, end: real)
    requires Additive(earn) && Open(rule) && 0.0 < now && start <= now <= end && spent >= 0.0
    requires InBudget(earn, rule, b, used, spent, start, end)
    ensures var level := Level(earn, rule, b, now);
            var one := if level < 1.0 then 0.0 else 1.0;
            InBudget(earn, rule, Bucket(level - one, now), true, spent + one, start, end)
  {
    assert earn(rule.rate, start, now) + earn(rule.rate, now, end) == earn(rule.rate, start, end);
    assert earn(rule.rate, b.lastRefill, now) + earn(rule.rate, now, end) == earn(rule.rate, b.lastRefill, end);
  }

  lemma {:induction false} GrantedGrows(earn: Earning, config: Config, calls: seq<Call>, k: string, i: nat)
    requires i <= |calls|
    ensures Granted(earn, config, calls[..i], k) <= Granted(earn, config, calls, k)
    decreases |calls|
  {
    if i == |calls| {
      assert calls[..i] == calls;
    } else {
      assert calls[..|calls| - 1][..i] == calls[..i];
      GrantedGrows(earn, config, calls[..|calls| - 1], k, i);
    }
  }

  lemma UsedStep(calls: seq<Call>, k: string, i: nat)
    requires i < |calls|
    ensures Used(calls, k, i) <==>
              BucketKey(calls[|calls| - 1].scene, calls[|calls| - 1].key) == k || Used(calls[..|calls| - 1], k, i)
  {
    var before := calls[..|calls| - 1];
    assert forall j | i <= j < |before| :: before[j] == calls[j];
  }

  lemma {:induction false} Budget(earn: Earning, config: Config, calls: seq<Call>, k: string, rule: Rule,
                                  i: nat, start: real, end: real)
    requires Additive(earn)
    requires Positive(calls) && OneRule(config, calls, k, rule) && Open(rule)
    requires i <= |calls| && forall j | i <= j < |calls| :: start <= calls[j].now <= end
    ensures InBudget(earn, rule, Lookup(Run(earn, config, calls), k), Used(calls, k, i),
                     (Granted(earn, config, calls, k) - Granted(earn, config, calls[..i], k)) as real, start, end)
    decreases |calls|
  {
    if i == |calls| {
      assert calls[..i] == calls;
    } else {
      var before, c := calls[..|calls| - 1], calls[|calls| - 1];
      Shorter(config, calls, k, rule);
      assert before[..i] == calls[..i];
      Budget(earn, config, before, k, rule, i, start, end);
      UsedStep(calls, k, i);
      GrantedGrows(earn, config, before, k, i);
      if BucketKey(c.scene, c.key) == k {
        CallBudget(earn, rule, Lookup(Run(earn, config, before), k), Used(before, k, i),
                   (Granted(earn, config, before, k) - Granted(earn, config, before[..i], k)) as real, c.now, start, end);
      }
    }
  }

  lemma Window(earn: Earning, config: Config, calls: seq<Call>, k: string, rule: Rule, i: nat, start: real, end: real)
    requires Additive(earn)
    requires Positive(calls) && OneRule(config, calls, k, rule) && Open(rule)
    requires i <= |calls| && start <= end && forall j | i <= j < |calls| :: start <= calls[j].now <= end
    ensures (Granted(earn, config, calls, k) - Granted(earn, config, calls[..i], k)) as real
            <= rule.burst + earn(rule.rate, start, end)
  {
    Budget(earn, config, calls, k, rule, i, start, end);
  }

  /** A closed rule admits nothing and leaves no trace. */
  lemma {:induction false} ClosedAdmitsNothing(earn: Earning, config: Config, calls: seq<Call>, k: string, rule: Rule)
    requires OneRule(config, calls, k, rule) && !Open(rule)
    ensures Granted(earn, config, calls, k) == 0 && k !in Run(earn, config, calls)
  {
    if calls != [] {
      var before, c := calls[..|calls| - 1], calls[|calls| - 1];
      assert c in calls;
      assert forall x | x in before :: x in calls;
      ClosedAdmitsNothing(earn, config, before, k, rule);
    }
  }

  // ----- buckets of different callers

  predicate Plain(scene: string) {
    ':' !in scene
  }

  lemma KeyAt(scene: string, key: string)
    ensures |BucketKey(scene, key)| == |scene| + 1 + |key|
    ensures BucketKey(scene, key)[..|scene|] == scene && BucketKey(scene, key)[|scene|] == ':'
    ensures BucketKey(scene, key)[|scene| + 1..] == key
  {
  }

  lemma ColonInside(b: string, i: nat, j: nat)
    requires i < |b| && j < |b| && b[i] == ':' == b[j]
    ensures i == j || ':' in b[..i] || ':' in b[..j]
  {
    if i < j {
      assert b[..j][i] == ':';
    } else if j < i {
      assert b[..i][j] == ':';
    }
  }

  /** Scenes without a colon never share a bucket unless scene and key agree. */
  lemma PlainScenesApart(s1: string, k1: string, s2: string, k2: string)
    requires Plain(s1) && Plain(s2) && BucketKey(s1, k1) == BucketKey(s2, k2)
    ensures s1 == s2 && k1 == k2
  {
    KeyAt(s1, k1);
    KeyAt(s2, k2);
    var b := BucketKey(s1, k1);
    ColonInside(b, |s1|, |s2|);
  }

  /** Every scene with a colon shares a bucket with another scene: the prefix alone does not keep the
      buckets of arbitrary scenes apart. */
  lemma ColonScenesCollide(before: string, after: string, key: string)
    ensures BucketKey(before + ":" + after, key) == BucketKey(before, after + ":" + key)
    ensures before + ":" + after != before
  {
    assert before + ":" + after + ":" + key == before + ":" + (after + ":" + key);
    assert |before + ":" + after| > |before|;
  }

  lemma PlainOneRule(config: Config, calls: seq<Call>, scene: string, key: string)
    requires Plain(scene) && forall c | c in calls :: Plain(c.scene)
    ensures OneRule(config, calls, BucketKey(scene, key), RuleFor(config, scene))
  {
    forall c | c in calls && BucketKey(c.scene, c.key) == BucketKey(scene, key)
      ensures RuleFor(config, c.scene) == RuleFor(config, scene)
    {
      PlainScenesApart(c.scene, c.key, scene, key);
    }
  }

  // ----- the reading 0

  /** At reading 0 a bucket never counts as used: any number of calls is admitted at once. */
  lemma {:induction false} ZeroReadingUnlimited(earn: Earning, config: Config, scene: string, key: string, n: nat)
    requires var rule := RuleFor(config, scene); Open(rule) && rule.burst >= 1.0
    ensures Granted(earn, config, seq(n, i => Call(scene, key, 0.0)), BucketKey(scene, key)) == n
    ensures Lookup(Run(earn, config, seq(n, i => Call(scene, key, 0.0))), BucketKey(scene, key)).lastRefill == 0.0
  {
    var calls := seq(n, i => Call(scene, key, 0.0));
    if n > 0 {
      ZeroReadingUnlimited(earn, config, scene, key, n - 1);
      assert calls[..n - 1] == seq(n - 1, i => Call(scene, key, 0.0));
    }
  }

  // ----- refused calls

  /** After a refusal under the first rule, calls under the second cannot tell that it happened: the rate is
      the same and the refusal has not capped the bucket, or neither rule admits anything from it. */
  predicate Neutral(refused: Rule, later: Rule) {
    || !Open(refused) || !Open(later)
    || (refused.burst >= 1.0 && later.rate == refused.rate)
    || (refused.burst < 1.0 && later.burst < 1.0)
  }

  /** Buckets with the same tokens at every time, as far as this rate goes; below a burst of 1 there is nothing
      to tell apart. */
  ghost predicate SameTokens(earn: Earning, refused: Rule, b: Bucket, b': Bucket) {
    refused.burst >= 1.0 ==>
      b == b' ||
      (b.lastRefill != 0.0 && b'.lastRefill != 0.0 &&
       forall t: real :: Ahead(earn, refused, b, t) == Ahead(earn, refused, b', t))
  }

  lemma RefusalComposes(earn: Earning, rule: Rule, b: Bucket, s: real)
    requires Additive(earn) && Open(rule) && s > 0.0 && Level(earn, rule, b, s) < 1.0
    ensures SameTokens(earn, rule, b, Bucket(Level(earn, rule, b, s), s))
  {
    forall t: real | rule.burst >= 1.0
      ensures Ahead(earn, rule, b, t) == Ahead(earn, rule, Bucket(Level(earn, rule, b, s), s), t)
    {
      assert earn(rule.rate, b.lastRefill, s) + earn(rule.rate, s, t) == earn(rule.rate, b.lastRefill, t);
    }
  }

  /** The two runs, with and without the refused call, differ at most in bucket k. */
  ghost predicate Alike(earn: Earning, refused: Rule, k: string, m: map<string, Bucket>, m': map<string, Bucket>) {
    && (forall key :: key != k ==> Lookup(m, key) == Lookup(m', key))
    && SameTokens(earn, refused, Lookup(m, k), Lookup(m', k))
  }

  lemma LevelAlike(earn: Earning, refused: Rule, later: Rule, b: Bucket, b': Bucket, t: real)
    requires Open(refused) && Open(later) && Neutral(refused, later) && SameTokens(earn, refused, b, b')
    ensures (Level(earn, later, b, t) >= 1.0) == (Level(earn, later, b', t) >= 1.0)
    ensures refused.burst >= 1.0 ==> Level(earn, later, b, t) == Level(earn, later, b', t)
  {
    if refused.burst >= 1.0 {
      assert b != b' ==> Ahead(earn, refused, b, t) == Ahead(earn, refused, b', t);
    }
  }

  lemma AlikeStep(earn: Earning, config: Config, refused: Rule, k: string,
                  m: map<string, Bucket>, m': map<string, Bucket>, d: Call)
    requires Open(refused) && Alike(earn, refused, k, m, m')
    requires BucketKey(d.scene, d.key) == k ==> Neutral(refused, RuleFor(config, d.scene))
    ensures Admits(earn, config, m, d) == Admits(earn, config, m', d)
    ensures Alike(earn, refused, k, After(earn, config, m, d), After(earn, config, m', d))
  {
    var rule := RuleFor(config, d.scene);
    if BucketKey(d.scene, d.key) == k && Open(rule) {
      LevelAlike(earn, refused, rule, Lookup(m, k), Lookup(m', k), d.now);
    }
    forall key | key != k
      ensures Lookup(After(earn, config, m, d), key) == Lookup(After(earn, config, m', d), key)
    {
      assert Lookup(m, key) == Lookup(m', key);
    }
  }

  lemma RefusalAlike(earn: Earning, config: Config, m: map<string, Bucket>, c: Call)
    requires Additive(earn) && c.now > 0.0 && !Admits(earn, config, m, c) && Open(RuleFor(config, c.scene))
    ensures Alike(earn, RuleFor(config, c.scene), BucketKey(c.scene, c.key), m, After(earn, config, m, c))
  {
    RefusalComposes(earn, RuleFor(config, c.scene), Lookup(m, BucketKey(c.scene, c.key)), c.now);
  }

  lemma RunAppend(earn: Earning, config: Config, calls: seq<Call>, c: Call)
    ensures Run(earn, config, calls + [c]) == After(earn, config, Run(earn, config, calls), c)
  {
    assert (calls + [c])[..|calls|] == calls;
  }

  /** Every one of these calls that uses the bucket of c is subject to a rule that is neutral to its own. */
  predicate NeutralTo(config: Config, c: Call, later: seq<Call>) {
    forall x | x in later ::
      BucketKey(x.scene, x.key) == BucketKey(c.scene, c.key) ==> Neutral(RuleFor(config, c.scene), RuleFor(config, x.scene))
  }

  lemma {:induction false} AlikeRun(earn: Earning, config: Config, calls: seq<Call>, c: Call, later: seq<Call>)
    requires Additive(earn) && c.now > 0.0 && Open(RuleFor(config, c.scene)) && NeutralTo(config, c, later)
    requires !Admits(earn, config, Run(earn, config, calls), c)
    ensures Alike(earn, RuleFor(config, c.scene), BucketKey(c.scene, c.key),
                  Run(earn, config, calls + later), Run(earn, config, calls + [c] + later))
    decreases |later|
  {
    if later == [] {
      assert calls + later == calls && calls + [c] + later == calls + [c];
      RefusalAlike(earn, config, Run(earn, config, calls), c);
      RunAppend(earn, config, calls, c);
    } else {
      var most, d := later[..|later| - 1], later[|later| - 1];
      assert later == most + [d] && d in later;
      AlikeRun(earn, config, calls, c, most);
      AlikeAppend(earn, config, calls, c, most, d);
    }
  }

  lemma AlikeAppend(earn: Earning, config: Config, calls: seq<Call>, c: Call, later: seq<Call>, d: Call)
    requires Open(RuleFor(config, c.scene))
    requires BucketKey(d.scene, d.key) == BucketKey(c.scene, c.key) ==>
               Neutral(RuleFor(config, c.scene), RuleFor(config, d.scene))
    requires Alike(earn, RuleFor(config, c.scene), BucketKey(c.scene, c.key),
                   Run(earn, config, calls + later), Run(earn, config, calls + [c] + later))
    ensures Alike(earn, RuleFor(config, c.scene), BucketKey(c.scene, c.key),
                  Run(earn, config, calls + (later + [d])), Run(earn, config, calls + [c] + (later + [d])))
  {
    AppendTwice(earn, config, calls, later, d);
    AppendTwice(earn, config, calls + [c], later, d);
    AlikeStep(earn, config, RuleFor(config, c.scene), BucketKey(c.scene, c.key),
              Run(earn, config, calls + later), Run(earn, config, calls + [c] + later), d);
  }

  lemma AppendTwice(earn: Earning, config: Config, calls: seq<Call>, later: seq<Call>, d: Call)
    ensures Run(earn, config, calls + (later + [d])) == After(earn, config, Run(earn, config, calls + later), d)
  {
    assert calls + (later + [d]) == calls + later + [d];
    RunAppend(earn, config, calls + later, d);
  }

  lemma ClosedNoTrace(earn: Earning, config: Config, calls: seq<Call>, c: Call, later: seq<Call>)
    requires !Open(RuleFor(config, c.scene))
    ensures Run(earn, config, calls + [c] + later) == Run(earn, config, calls + later)
    decreases |later|
  {
    if later == [] {
      assert calls + [c] + later == calls + [c] && calls + later == calls;
      RunAppend(earn, config, calls, c);
    } else {
      var most, d := later[..|later| - 1], later[|later| - 1];
      ClosedNoTrace(earn, config, calls, c, most);
      assert calls + [c] + later == calls + [c] + most + [d] && calls + later == calls + most + [d];
      RunAppend(earn, config, calls + [c] + most, d);
      RunAppend(earn, config, calls + most, d);
    }
  }

  // ----- a patient caller

  /** When bucket k was last asked for a token. */
  function LastUse(calls: seq<Call>, k: string): Option<real> {
    if calls == [] then None
    else
      var c := calls[|calls| - 1];
      if BucketKey(c.scene, c.key) == k then Some(c.now) else LastUse(calls[..|calls| - 1], k)
  }

  /** Calls on bucket k lie at least one refill period apart. */
  predicate Spaced(earn: Earning, rule: Rule, calls: seq<Call>, k: string) {
    calls == [] ||
    (var before, c := calls[..|calls| - 1], calls[|calls| - 1];
     && Spaced(earn, rule, before, k)
     && (BucketKey(c.scene, c.key) == k && LastUse(before, k).Some? ==>
           earn(rule.rate, LastUse(before, k).value, c.now) >= 1.0))
  }

  function Asked(calls: seq<Call>, k: string): nat {
    if calls == [] then 0
    else
      var c := calls[|calls| - 1];
      Asked(calls[..|calls| - 1], k) + if BucketKey(c.scene, c.key) == k then 1 else 0
  }

  lemma {:induction false} Patience(earn: Earning, config: Config, calls: seq<Call>, k: string, rule: Rule)
    requires Positive(calls) && OneRule(config, calls, k, rule) && Open(rule) && rule.burst >= 1.0
    requires Spaced(earn, rule, calls, k)
    ensures Granted(earn, config, calls, k) == Asked(calls, k)
    ensures var b := Lookup(Run(earn, config, calls), k);
            if LastUse(calls, k).None? then b == NEW_BUCKET
            else b.lastRefill == LastUse(calls, k).value > 0.0 && b.tokens >= 0.0
  {
    if calls != [] {
      Shorter(config, calls, k, rule);
      Patience(earn, config, calls[..|calls| - 1], k, rule);
    }
  }

  // ----- exactly how many calls are admitted at one time

  function Again(calls: seq<Call>, c: Call, n: nat): seq<Call> {
    calls + seq(n, i => c)
  }

  /** The whole tokens among so many. */
  function Whole(tokens: real): nat {
    if tokens < 0.0 then 0 else tokens.Floor
  }

  lemma OneMore(earn: Earning, config: Config, calls: seq<Call>, c: Call)
    ensures Run(earn, config, calls + [c]) == After(earn, config, Run(earn, config, calls), c)
    ensures Granted(earn, config, calls + [c], BucketKey(c.scene, c.key)) ==
              Granted(earn, config, calls, BucketKey(c.scene, c.key)) +
              if Admits(earn, config, Run(earn, config, calls), c) then 1 else 0
  {
    assert (calls + [c])[..|calls|] == calls;
  }

  /** One more call at the time of the last one. */
  lemma OneToken(earn: Earning, rule: Rule, b: Bucket, now: real)
    requires Additive(earn) && now > 0.0
    ensures var level := Level(earn, rule, b, now);
            var left := if level < 1.0 then level else level - 1.0;
            Level(earn, rule, Bucket(left, now), now) == left
  {
    assert earn(rule.rate, now, now) + earn(rule.rate, now, now) == earn(rule.rate, now, now);
  }

  lemma OneFewer(level: real, n: nat)
    requires n > 0
    ensures var some := Least(n - 1, Whole(level));
            Least(n, Whole(level)) == some + if level - some as real < 1.0 then 0 else 1
  {
  }

  /** What n calls leave, from what the bucket had. */
  predicate TookTokens(earn: Earning, rule: Rule, k: string, now: real, had: real, some: nat, m: map<string, Bucket>) {
    Level(earn, rule, Lookup(m, k), now) == had - some as real
  }

  lemma TookOneMore(earn: Earning, config: Config, c: Call, had: real, n: nat, m: map<string, Bucket>)
    requires Additive(earn) && c.now > 0.0 && Open(RuleFor(config, c.scene)) && n > 0
    requires TookTokens(earn, RuleFor(config, c.scene), BucketKey(c.scene, c.key), c.now, had, Least(n - 1, Whole(had)), m)
    ensures TookTokens(earn, RuleFor(config, c.scene), BucketKey(c.scene, c.key), c.now, had,
                       Least(n, Whole(had)), After(earn, config, m, c))
    ensures Least(n, Whole(had)) == Least(n - 1, Whole(had)) + if Admits(earn, config, m, c) then 1 else 0
  {
    OneToken(earn, RuleFor(config, c.scene), Lookup(m, BucketKey(c.scene, c.key)), c.now);
    OneFewer(had, n);
  }

  /** The first n calls take a token each while there is a whole one. */
  lemma {:induction false} Taken(earn: Earning, config: Config, calls: seq<Call>, c: Call, n: nat, had: real)
    requires Additive(earn) && c.now > 0.0 && Open(RuleFor(config, c.scene))
    requires had == Level(earn, RuleFor(config, c.scene), Lookup(Run(earn, config, calls), BucketKey(c.scene, c.key)), c.now)
    ensures Granted(earn, config, Again(calls, c, n), BucketKey(c.scene, c.key)) ==
              Granted(earn, config, calls, BucketKey(c.scene, c.key)) + Least(n, Whole(had))
    ensures TookTokens(earn, RuleFor(config, c.scene), BucketKey(c.scene, c.key), c.now, had, Least(n, Whole(had)),
                       Run(earn, config, Again(calls, c, n)))
    decreases n
  {
    if n == 0 {
      assert Again(calls, c, 0) == calls;
    } else {
      var before := Again(calls, c, n - 1);
      Taken(earn, config, calls, c, n - 1, had);
      assert Again(calls, c, n) == before + [c];
      OneMore(earn, config, before, c);
      TookOneMore(earn, config, c, had, n, Run(earn, config, before));
    }
  }

  function Least(m: nat, n: nat): nat {
    if m < n then m else n
  }

  /** What a bucket holds at a time: what it had after its last call and what its rate has added since, up to the
      burst, or the whole burst if it was never used. */
  function TokensAt(rule: Rule, b: Bucket, t: real): real {
    if b.lastRefill == 0.0 then rule.burst else Min(rule.burst, b.tokens + (t - b.lastRefill) * rule.rate)
  }

  lemma LevelIs(rule: Rule, b: Bucket, t: real)
    ensures Level(Earned, rule, b, t) == TokensAt(rule, b, t)
  {
  }

  lemma TakenEarned(config: Config, calls: seq<Call>, c: Call, n: nat, had: real)
    requires c.now > 0.0 && Open(RuleFor(config, c.scene))
    requires had == Level(Earned, RuleFor(config, c.scene), Lookup(Run(Earned, config, calls), BucketKey(c.scene, c.key)), c.now)
    ensures Granted(Earned, config, Again(calls, c, n), BucketKey(c.scene, c.key)) ==
              Granted(Earned, config, calls, BucketKey(c.scene, c.key)) + Least(n, Whole(had))
  {
    EarnedAdditive();
    Taken(Earned, config, calls, c, n, had);
  }

  /** Of n calls at one time a bucket admits exactly as many as it has whole tokens. */
  lemma AdmitsWholeTokens(config: Config, calls: seq<Call>, c: Call, n: nat)
    requires c.now > 0.0 && Open(RuleFor(config, c.scene))
    ensures var k := BucketKey(c.scene, c.key);
            Granted(Earned, config, Again(calls, c, n), k) == Granted(Earned, config, calls, k) +
              Least(n, Whole(TokensAt(RuleFor(config, c.scene), Lookup(Run(Earned, config, calls), k), c.now)))
  {
    var b := Lookup(Run(Earned, config, calls), BucketKey(c.scene, c.key));
    LevelIs(RuleFor(config, c.scene), b, c.now);
    TakenEarned(config, calls, c, n, TokensAt(RuleFor(config, c.scene), b, c.now));
  }

  lemma {:induction false} NeverAskedIsNew(earn: Earning, config: Config, calls: seq<Call>, k: string)
    requires forall c | c in calls :: BucketKey(c.scene, c.key) != k
    ensures Granted(earn, config, calls, k) == 0 && k !in Run(earn, config, calls)
  {
    if calls != [] {
      assert calls[|calls| - 1] in calls;
      assert forall c | c in calls[..|calls| - 1] :: c in calls;
      NeverAskedIsNew(earn, config, calls[..|calls| - 1], k);
    }
  }

  /** Quotas by scene, whatever happened on other buckets: of n calls at one time a new caller gets the burst
      configured for single chats, for broadcasts, or for groups, which is also that of every other scene; and
      nothing if its rate or burst is not positive. */
  lemma NewCallerGetsBurst(config: Config, calls: seq<Call>, scene: string, key: string, now: real, n: nat)
    requires now > 0.0 && forall c | c in calls :: BucketKey(c.scene, c.key) != BucketKey(scene, key)
    ensures var granted := Granted(Earned, config, Again(calls, Call(scene, key, now), n), BucketKey(scene, key));
            && (scene == "single" ==>
                  granted == if config.singleRate > 0.0 && config.singleBurst > 0.0 then Least(n, config.singleBurst.Floor) else 0)
            && (scene == "broadcast" ==>
                  granted == if config.broadcastRate > 0.0 && config.broadcastBurst > 0.0 then Least(n, config.broadcastBurst.Floor) else 0)
            && (scene != "single" && scene != "broadcast" ==>
                  granted == if config.groupRate > 0.0 && config.groupBurst > 0.0 then Least(n, config.groupBurst.Floor) else 0)
  {
    var c, k := Call(scene, key, now), BucketKey(scene, key);
    NeverAskedIsNew(Earned, config, calls, k);
    if Open(RuleFor(config, scene)) {
      AdmitsWholeTokens(config, calls, c, n);
    } else {
      ClosedGetsNothing(config, calls, c, n);
    }
  }

  lemma {:induction false} ClosedGetsNothing(config: Config, calls: seq<Call>, c: Call, n: nat)
    requires !Open(RuleFor(config, c.scene))
    ensures Granted(Earned, config, Again(calls, c, n), BucketKey(c.scene, c.key)) ==
              Granted(Earned, config, calls, BucketKey(c.scene, c.key))
  {
    if n == 0 {
      assert Again(calls, c, 0) == calls;
    } else {
      ClosedGetsNothing(config, calls, c, n - 1);
      assert Again(calls, c, n) == Again(calls, c, n - 1) + [c];
      OneMore(Earned, config, Again(calls, c, n - 1), c);
    }
  }

  // ----- the limiter

  /** In every window of a run, with any calls on any keys in it, a bucket admits at most its burst plus what
      its rate adds from the earliest to the latest reading of the window. A closed rule admits nothing. */
  lemma WindowBound(config: Config, calls: seq<Call>, k: string, rule: Rule, i: nat, start: real, end: real)
    requires Positive(calls) && OneRule(config, calls, k, rule)
    requires i <= |calls| && start <= end && forall j | i <= j < |calls| :: start <= calls[j].now <= end
    ensures Open(rule) ==>
              (Granted(Earned, config, calls, k) - Granted(Earned, config, calls[..i], k)) as real
              <= rule.burst + Earned(rule.rate, start, end)
    ensures !Open(rule) ==> Granted(Earned, config, calls, k) == 0
  {
    EarnedAdditive();
    if Open(rule) {
      Window(Earned, config, calls, k, rule, i, start, end);
    } else {
      ClosedAdmitsNothing(Earned, config, calls, k, rule);
    }
  }

  /** A refused call changes no later decision: each later call, on any scene and key, is decided as if it had
      not been made, provided the calls that share its bucket have neutral rules. */
  lemma RefusalLeavesNoTrace(config: Config, calls: seq<Call>, c: Call, later: seq<Call>, d: Call)
    requires c.now > 0.0 && NeutralTo(config, c, later + [d])
    requires !Admits(Earned, config, Run(Earned, config, calls), c)
    ensures Admits(Earned, config, Run(Earned, config, calls + later), d)
        == Admits(Earned, config, Run(Earned, config, calls + [c] + later), d)
  {
    assert (later + [d])[|later|] == d;
    if Open(RuleFor(config, c.scene)) {
      EarnedAdditive();
      assert forall x | x in later :: x in later + [d];
      AlikeRun(Earned, config, calls, c, later);
      AlikeStep(Earned, config, RuleFor(config, c.scene), BucketKey(c.scene, c.key),
                Run(Earned, config, calls + later), Run(Earned, config, calls + [c] + later), d);
    } else {
      ClosedNoTrace(Earned, config, calls, c, later);
    }
  }

  /** Scenes without a colon always have neutral rules. */
  lemma PlainNeutral(config: Config, c: Call, later: seq<Call>)
    requires Plain(c.scene) && forall x | x in later :: Plain(x.scene)
    ensures NeutralTo(config, c, later)
  {
    forall x | x in later && BucketKey(x.scene, x.key) == BucketKey(c.scene, c.key)
      ensures Neutral(RuleFor(config, c.scene), RuleFor(config, x.scene))
    {
      PlainScenesApart(x.scene, x.key, c.scene, c.key);
    }
  }

  /** For a later rule that can admit something at all, neutral is exactly what is needed: otherwise there are
      a bucket, a call refused under the first rule and a call under the second that it changes. */
  lemma NeutralExactlyWhen(refused: Rule, later: Rule)
    requires Open(refused) && Open(later) && later.burst >= 1.0
    ensures Neutral(refused, later) <==>
              forall b: Bucket, s: real, t: real | s > 0.0 && t > 0.0 && Level(Earned, refused, b, s) < 1.0 ::
                Unchanged(refused, later, b, s, t)
  {
    if Neutral(refused, later) {
      EarnedAdditive();
      forall b: Bucket, s: real, t: real | s > 0.0 && t > 0.0 && Level(Earned, refused, b, s) < 1.0
        ensures Unchanged(refused, later, b, s, t)
      {
        RefusalComposes(Earned, refused, b, s);
        LevelAlike(Earned, refused, later, b, Bucket(Level(Earned, refused, b, s), s), t);
      }
    } else if refused.burst < 1.0 {
      assert !Unchanged(refused, later, NEW_BUCKET, 1.0, 1.0);
    } else {
      var s, t := OtherRate(refused, later);
    }
  }

  /** The later decision is the same with the refused call at s and without it. */
  predicate Unchanged(refused: Rule, later: Rule, b: Bucket, s: real, t: real) {
    (Level(Earned, later, b, t) >= 1.0) == (Level(Earned, later, Bucket(Level(Earned, refused, b, s), s), t) >= 1.0)
  }

  lemma LevelOf(rule: Rule, b: Bucket, t: real, earned: real)
    requires b.lastRefill != 0.0 && earned == Earned(rule.rate, b.lastRefill, t)
    ensures Level(Earned, rule, b, t) == Min(rule.burst, b.tokens + earned)
  {
  }

  /** An empty bucket refilled for half a token at one rate and then read at another. */
  lemma OtherRate(refused: Rule, later: Rule) returns (s: real, t: real)
    requires Open(refused) && Open(later) && later.burst >= 1.0 && refused.burst >= 1.0 && later.rate != refused.rate
    ensures s > 0.0 && t > 0.0 && Level(Earned, refused, Bucket(0.0, 1.0), s) < 1.0
    ensures !Unchanged(refused, later, Bucket(0.0, 1.0), s, t)
  {
    var half, whole := 0.5 / refused.rate, 1.0 / later.rate;
    assert half * refused.rate == 0.5 && whole * later.rate == 1.0;
    s := 1.0 + half;
    var x := half * later.rate;
    LevelOf(refused, Bucket(0.0, 1.0), s, 0.5);
    if later.rate > refused.rate {
      Slower(later.rate, half, refused.rate);
      t := 1.0 + whole;
      WithAndWithout(later, s, t, half, whole, x);
    } else {
      Slower(refused.rate, half, later.rate);
      t := s + 0.5 * whole;
      Between(later, s, t, half, whole, x);
    }
  }

  lemma WithAndWithout(later: Rule, s: real, t: real, half: real, whole: real, x: real)
    requires x > 0.5 && later.burst >= 1.0 && s == 1.0 + half && t == 1.0 + whole
    requires whole * later.rate == 1.0 && half * later.rate == x && s > 0.0
    ensures Level(Earned, later, Bucket(0.0, 1.0), t) >= 1.0 > Level(Earned, later, Bucket(0.5, s), t)
  {
    assert t - 1.0 == whole && t - s == whole - half;
    assert Earned(later.rate, 1.0, t) == whole * later.rate;
    assert Earned(later.rate, s, t) == (whole - half) * later.rate == 1.0 - x;
    LevelOf(later, Bucket(0.0, 1.0), t, 1.0);
    LevelOf(later, Bucket(0.5, s), t, 1.0 - x);
  }

  lemma Between(later: Rule, s: real, t: real, half: real, whole: real, x: real)
    requires x < 0.5 && later.burst >= 1.0 && s == 1.0 + half && t == s + 0.5 * whole
    requires whole * later.rate == 1.0 && half * later.rate == x && s > 0.0
    ensures Level(Earned, later, Bucket(0.0, 1.0), t) < 1.0 <= Level(Earned, later, Bucket(0.5, s), t)
  {
    assert Earned(later.rate, s, t) == 0.5 * (whole * later.rate) == 0.5;
    assert Earned(later.rate, 1.0, t) == half * later.rate + 0.5 * (whole * later.rate) == x + 0.5;
    LevelOf(later, Bucket(0.0, 1.0), t, x + 0.5);
    LevelOf(later, Bucket(0.5, s), t, 0.5);
  }

  lemma Slower(fast: real, time: real, slow: real)
    requires fast > slow && time > 0.0
    ensures time * fast > time * slow
  {
    assert time * (fast - slow) > 0.0;
  }

  /** A caller that leaves at least 1/rate between its calls is never refused, whatever others do. */
  lemma PatientNeverRefused(config: Config, calls: seq<Call>, k: string, rule: Rule)
    requires Positive(calls) && OneRule(config, calls, k, rule) && Open(rule) && rule.burst >= 1.0
    requires Spaced(Earned, rule, calls, k)
    ensures Granted(Earned, config, calls, k) == Asked(calls, k)
  {
    Patience(Earned, config, calls, k, rule);
  }
}
