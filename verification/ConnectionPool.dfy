/** The MySQL and the Redis connection pool: capacity is reserved before the lock is dropped to connect,
    and handed back when that fails. Each section that holds the lock is one step; steps of different
    callers come in any order. Times are nanoseconds of the steady clock. */
module ConnectionPool {
  import opened Basics

  type Handle = nat

  datatype Kind = MySql | Redis

  datatype Config = Config(
    kind: Kind, poolSize: int, minSize: int, maxSize: int, idleTimeoutMs: int,
    autoGrow: bool, pingOnBorrow: bool, healthCheckMs: int)

  datatype Entry = Entry(handle: Handle, lastUsed: nat)

  /** What a caller inside Acquire, or holding its result, has of the pool's capacity. */
  datatype Loan = Creating | Checking(handle: Handle, mustPing: bool) | Lent(handle: Handle)

  datatype State = State(
    idle: seq<Entry>, total: int, inited: bool, stopping: bool,
    loans: map<nat, Loan>, clock: nat)

  datatype Step =
    | Ask(caller: nat, now: nat)
    | Created(caller: nat, conn: Option<Handle>)
    | Checked(caller: nat, alive: bool)
    | GiveBack(caller: nat, now: nat, broken: bool)
    | Halt

  function Normalised(c: Config): Config {
    var low := if c.minSize <= 0 then (if c.poolSize > 0 then c.poolSize else 1) else c.minSize;
    var high := if c.maxSize <= 0 then Max(low, c.poolSize) else c.maxSize;
    c.(minSize := low, maxSize := Max(high, low))
  }

  /** Normalising gives usable sizes, keeps sizes that are usable, and has nothing left to do afterwards. */
  lemma NormalisedSizes(c: Config)
    ensures 1 <= Normalised(c).minSize <= Normalised(c).maxSize
    ensures 1 <= c.minSize <= c.maxSize <==> Normalised(c) == c
    ensures Normalised(Normalised(c)) == Normalised(c)
  {
  }

  /** Sizes that are not given come from the pool size: the minimum is the pool size, or 1 if that is not given either,
      and the maximum is the larger of the minimum and the pool size. */
  lemma SizesNotGiven(c: Config)
    ensures c.minSize <= 0 && c.poolSize > 0 ==> Normalised(c).minSize == c.poolSize
    ensures c.minSize <= 0 && c.poolSize <= 0 ==> Normalised(c).minSize == 1
    ensures c.maxSize <= 0 ==> var m := Normalised(c).maxSize;
                               m >= Normalised(c).minSize && m >= c.poolSize && (m == Normalised(c).minSize || m == c.poolSize)
    ensures Normalised(c) == c.(minSize := Normalised(c).minSize, maxSize := Normalised(c).maxSize)
  {
  }

  // ----- idle connections

  /** The idle time is cut to whole milliseconds before it is compared. */
  predicate Expired(c: Config, e: Entry, now: nat) {
    e.lastUsed <= now && (now - e.lastUsed) / 1_000_000 >= c.idleTimeoutMs
  }

  /** How many entries a cleanup takes off the front. */
  function Expiring(c: Config, idle: seq<Entry>, total: int, now: nat): (n: nat)
    ensures n <= |idle|
    decreases |idle|
  {
    if c.idleTimeoutMs <= 0 || idle == [] || !Expired(c, idle[0], now) || total <= c.minSize then 0
    else 1 + Expiring(c, idle[1..], total - 1, now)
  }

  predicate Sorted(idle: seq<Entry>) {
    forall i, j | 0 <= i < j < |idle| :: idle[i].lastUsed <= idle[j].lastUsed
  }

  lemma ExpiredEarlier(c: Config, older: Entry, newer: Entry, now: nat)
    requires older.lastUsed <= newer.lastUsed && Expired(c, newer, now)
    ensures Expired(c, older, now)
  {
  }

  /** A cleanup closes only expired connections and never goes below the minimum. It leaves an expired one
      only at the minimum: although it looks no further than the first entry in use recently, it misses none. */
  lemma {:induction false} CleanupExact(c: Config, idle: seq<Entry>, total: int, now: nat)
    requires Sorted(idle) && c.idleTimeoutMs > 0
    ensures var n := Expiring(c, idle, total, now);
            && (forall i | 0 <= i < n :: Expired(c, idle[i], now))
            && (n > 0 ==> total - n >= c.minSize)
            && (total - n > c.minSize ==> forall i | n <= i < |idle| :: !Expired(c, idle[i], now))
    decreases |idle|
  {
    if idle == [] {
    } else if !Expired(c, idle[0], now) {
      forall i | 0 <= i < |idle|
        ensures !Expired(c, idle[i], now)
      {
        if Expired(c, idle[i], now) {
          ExpiredEarlier(c, idle[0], idle[i], now);
        }
      }
    } else if total > c.minSize {
      CleanupExact(c, idle[1..], total - 1, now);
      assert forall i | 0 < i < |idle| :: idle[i] == idle[1..][i - 1];
    }
  }

  // ----- steps

  /** MySQL pings every connection that was idle if told to; Redis those that have not been used lately. */
  predicate MustPing(c: Config, e: Entry, now: nat) {
    match c.kind
    case MySql => c.pingOnBorrow
    case Redis => c.healthCheckMs > 0 && e.lastUsed <= now && now - e.lastUsed >= c.healthCheckMs * 1_000_000
  }

  predicate MayCreate(c: Config, total: int) {
    total < c.minSize || (c.autoGrow && total < c.maxSize)
  }

  predicate Occurs(s: State, h: Handle) {
    || (exists e | e in s.idle :: e.handle == h)
    || (exists k | k in s.loans :: !s.loans[k].Creating? && s.loans[k].handle == h)
  }

  /** A step can happen only when its caller is there, the clock does not go back, and a new connection is
      not one that is still open. */
  predicate Enabled(s: State, step: Step) {
    match step
    case Ask(k, now) => s.inited && !s.stopping && k !in s.loans && s.clock <= now
    case Created(k, conn) => k in s.loans && s.loans[k].Creating? && (conn.Some? ==> !Occurs(s, conn.value))
    case Checked(k, alive) => k in s.loans && s.loans[k].Checking?
    case GiveBack(k, now, broken) => k in s.loans && s.loans[k].Lent? && s.clock <= now
    case Halt => true
  }

  function OnAsk(c: Config, s: State, k: nat, now: nat): State {
    var n := Expiring(c, s.idle, s.total, now);
    var idle, total := s.idle[n..], s.total - n;
    if idle != [] then
      s.(idle := idle[1..], total := total, clock := now,
         loans := s.loans[k := Checking(idle[0].handle, MustPing(c, idle[0], now))])
    else if MayCreate(c, total) then
      s.(idle := idle, total := total + 1, clock := now, loans := s.loans[k := Creating])
    else s.(idle := idle, total := total, clock := now)
  }

  function OnCreated(s: State, k: nat, conn: Option<Handle>): State {
    match conn
    case Some(h) => s.(loans := s.loans[k := Checking(h, false)])
    case None => s.(loans := s.loans - {k}, total := s.total - 1)
  }

  function OnChecked(s: State, k: nat, alive: bool): State
    requires k in s.loans && s.loans[k].Checking?
  {
    if (alive || !s.loans[k].mustPing) && !s.stopping then s.(loans := s.loans[k := Lent(s.loans[k].handle)])
    else s.(loans := s.loans - {k}, total := s.total - 1)
  }

  function OnGiveBack(c: Config, s: State, k: nat, now: nat, broken: bool): State
    requires k in s.loans && s.loans[k].Lent?
  {
    var out := s.(loans := s.loans - {k}, clock := now);
    if s.stopping || (c.kind == Redis && broken) then out.(total := if s.total > 0 then s.total - 1 else s.total)
    else out.(idle := s.idle + [Entry(s.loans[k].handle, now)])
  }

  function Apply(c: Config, s: State, step: Step): State
    requires Enabled(s, step)
  {
    match step
    case Ask(k, now) => OnAsk(c, s, k, now)
    case Created(k, conn) => OnCreated(s, k, conn)
    case Checked(k, alive) => OnChecked(s, k, alive)
    case GiveBack(k, now, broken) => OnGiveBack(c, s, k, now, broken)
    case Halt => s.(stopping := true)
  }

  function Run(c: Config, s: State, steps: seq<Step>): State {
    if steps == [] then s
    else
      var before := Run(c, s, steps[..|steps| - 1]);
      var step := steps[|steps| - 1];
      if Enabled(before, step) then Apply(c, before, step) else before
  }

  // ----- what every step keeps

  function Limit(c: Config): int {
    if c.autoGrow then c.maxSize else c.minSize
  }

  /** The count is exactly the idle connections and the ones callers hold, create or check. */
  predicate Counted(c: Config, s: State) {
    s.total == |s.idle| + |s.loans| && s.total <= Limit(c)
  }

  predicate HasHandle(loan: Loan, h: Handle) {
    !loan.Creating? && loan.handle == h
  }

  predicate IdleDistinct(s: State) {
    forall i, j | 0 <= i < j < |s.idle| :: s.idle[i].handle != s.idle[j].handle
  }

  predicate IdleNotLent(s: State) {
    forall i, k | 0 <= i < |s.idle| && k in s.loans :: !HasHandle(s.loans[k], s.idle[i].handle)
  }

  /** No connection is with two callers. */
  predicate OneCallerEach(s: State) {
    forall k, m | k in s.loans && m in s.loans && k != m && !s.loans[k].Creating? :: !HasHandle(s.loans[m], s.loans[k].handle)
  }

  predicate InOrder(s: State) {
    Sorted(s.idle) && forall i | 0 <= i < |s.idle| :: s.idle[i].lastUsed <= s.clock
  }

  predicate Inv(c: Config, s: State) {
    Counted(c, s) && IdleDistinct(s) && IdleNotLent(s) && OneCallerEach(s) && InOrder(s)
  }

  predicate Usable(c: Config) {
    1 <= c.minSize <= c.maxSize
  }

  lemma LoanRemoved(loans: map<nat, Loan>, k: nat)
    requires k in loans
    ensures |loans - {k}| == |loans| - 1
  {
    assert (loans - {k}).Keys == loans.Keys - {k};
  }

  lemma LoanReplaced(loans: map<nat, Loan>, k: nat, loan: Loan)
    requires k in loans
    ensures |loans[k := loan]| == |loans|
  {
    assert loans[k := loan].Keys == loans.Keys;
  }

  lemma LoanAdded(loans: map<nat, Loan>, k: nat, loan: Loan)
    requires k !in loans
    ensures |loans[k := loan]| == |loans| + 1
  {
    assert loans[k := loan].Keys == loans.Keys + {k};
  }

  /** Taking entries off the front of the idle queue keeps everything but the count. */
  predicate Rest(c: Config, s: State) {
    IdleDistinct(s) && IdleNotLent(s) && OneCallerEach(s) && InOrder(s)
  }

  lemma Shortened(c: Config, s: State, n: nat, total: int, now: nat)
    requires Rest(c, s) && n <= |s.idle| && s.clock <= now
    ensures Rest(c, s.(idle := s.idle[n..], total := total, clock := now))
  {
  }

  lemma AskTakes(c: Config, s: State, k: nat, mustPing: bool)
    requires Rest(c, s) && s.idle != [] && k !in s.loans
    ensures Rest(c, s.(idle := s.idle[1..], loans := s.loans[k := Checking(s.idle[0].handle, mustPing)]))
  {
  }

  lemma AskReserves(c: Config, s: State, k: nat, total: int)
    requires Rest(c, s) && k !in s.loans
    ensures Rest(c, s.(total := total, loans := s.loans[k := Creating]))
  {
  }

  lemma CleanupCount(c: Config, idle: seq<Entry>, total: int, now: nat)
    requires Sorted(idle)
    ensures Expiring(c, idle, total, now) > 0 ==> total - Expiring(c, idle, total, now) >= c.minSize
  {
    if c.idleTimeoutMs > 0 {
      CleanupExact(c, idle, total, now);
    }
  }

  lemma AskInv(c: Config, s: State, k: nat, now: nat)
    requires Usable(c) && Inv(c, s) && Enabled(s, Ask(k, now))
    ensures Inv(c, OnAsk(c, s, k, now))
  {
    var n := Expiring(c, s.idle, s.total, now);
    var cleaned := s.(idle := s.idle[n..], total := s.total - n, clock := now);
    Shortened(c, s, n, s.total - n, now);
    if cleaned.idle != [] {
      AskTakes(c, cleaned, k, MustPing(c, cleaned.idle[0], now));
    } else if MayCreate(c, cleaned.total) {
      AskReserves(c, cleaned, k, cleaned.total + 1);
    }
    AskCounted(c, s, k, now);
  }

  lemma AskCounted(c: Config, s: State, k: nat, now: nat)
    requires Usable(c) && Counted(c, s) && k !in s.loans
    ensures Counted(c, OnAsk(c, s, k, now))
  {
    var n := Expiring(c, s.idle, s.total, now);
    LoanAdded(s.loans, k, Creating);
    if s.idle[n..] != [] {
      LoanAdded(s.loans, k, Checking(s.idle[n].handle, MustPing(c, s.idle[n], now)));
    }
  }

  lemma CreatedInv(c: Config, s: State, k: nat, conn: Option<Handle>)
    requires Inv(c, s) && Enabled(s, Created(k, conn))
    ensures Inv(c, OnCreated(s, k, conn))
  {
    LoanRemoved(s.loans, k);
    if conn.Some? {
      LoanReplaced(s.loans, k, Checking(conn.value, false));
    }
    CreatedRest(c, s, k, conn);
  }

  lemma CreatedRest(c: Config, s: State, k: nat, conn: Option<Handle>)
    requires Rest(c, s) && Enabled(s, Created(k, conn))
    ensures Rest(c, OnCreated(s, k, conn))
  {
    assert forall i | 0 <= i < |s.idle| :: s.idle[i] in s.idle;
  }

  lemma CheckedInv(c: Config, s: State, k: nat, alive: bool)
    requires Inv(c, s) && Enabled(s, Checked(k, alive))
    ensures Inv(c, OnChecked(s, k, alive))
  {
    LoanRemoved(s.loans, k);
    LoanReplaced(s.loans, k, Lent(s.loans[k].handle));
    CheckedRest(c, s, k, alive);
  }

  lemma CheckedRest(c: Config, s: State, k: nat, alive: bool)
    requires Rest(c, s) && Enabled(s, Checked(k, alive))
    ensures Rest(c, OnChecked(s, k, alive))
  {
  }

  lemma GiveBackInv(c: Config, s: State, k: nat, now: nat, broken: bool)
    requires Inv(c, s) && Enabled(s, GiveBack(k, now, broken))
    ensures Inv(c, OnGiveBack(c, s, k, now, broken))
  {
    LoanRemoved(s.loans, k);
  }

  /** In every run: the count is right and within the limit, no connection is idle and lent or lent twice,
      and the idle queue is ordered by last use. */
  lemma {:induction false} RunInv(c: Config, s: State, steps: seq<Step>)
    requires Usable(c) && Inv(c, s)
    ensures Inv(c, Run(c, s, steps))
  {
    if steps != [] {
      var n := |steps| - 1;
      RunInv(c, s, steps[..n]);
      var before := Run(c, s, steps[..n]);
      if Enabled(before, steps[n]) {
        match steps[n] {
          case Ask(k, now) => AskInv(c, before, k, now);
          case Created(k, conn) => CreatedInv(c, before, k, conn);
          case Checked(k, alive) => CheckedInv(c, before, k, alive);
          case GiveBack(k, now, broken) => GiveBackInv(c, before, k, now, broken);
          case Halt =>
        }
      }
    }
  }

  // ----- what callers get

  /** A caller gets nothing exactly when no connection is idle and callers hold the whole capacity. */
  lemma BlockedExactlyWhen(c: Config, s: State, k: nat, now: nat)
    requires Usable(c) && Inv(c, s) && Enabled(s, Ask(k, now))
    ensures k !in OnAsk(c, s, k, now).loans <==> s.idle == [] && |s.loans| == Limit(c)
  {
    CleanupCount(c, s.idle, s.total, now);
  }

  // ----- what each section decides

  /** Unused for the whole timeout, in whole milliseconds. */
  predicate LongIdle(c: Config, e: Entry, now: nat) {
    c.idleTimeoutMs > 0 && (now - e.lastUsed) / 1_000_000 >= c.idleTimeoutMs
  }

  /** Connection `i` is the first that the cleanup leaves: those before it have been idle for the whole timeout
      and are above the minimum, and it is not, or the minimum is reached, or nothing is left. */
  predicate FirstLeft(c: Config, idle: seq<Entry>, total: int, i: nat, now: nat) {
    && i <= |idle|
    && (forall j | 0 <= j < i :: LongIdle(c, idle[j], now) && total - j > c.minSize)
    && (i < |idle| ==> !LongIdle(c, idle[i], now) || total - i <= c.minSize)
  }

  lemma FirstLeftBehind(c: Config, idle: seq<Entry>, total: int, i: nat, now: nat)
    requires FirstLeft(c, idle, total, i, now) && i > 0
    ensures FirstLeft(c, idle[1..], total - 1, i - 1, now)
  {
    var rest := idle[1..];
    forall j | 0 <= j < i - 1
      ensures LongIdle(c, rest[j], now) && total - 1 - j > c.minSize
    {
      assert rest[j] == idle[j + 1];
    }
    assert i < |idle| ==> rest[i - 1] == idle[i];
  }

  lemma {:induction false} ExpiringIs(c: Config, idle: seq<Entry>, total: int, i: nat, now: nat)
    requires FirstLeft(c, idle, total, i, now) && forall e | e in idle :: e.lastUsed <= now
    ensures Expiring(c, idle, total, now) == i
    decreases i
  {
    if i > 0 {
      FirstLeftBehind(c, idle, total, i, now);
      assert LongIdle(c, idle[0], now) && idle[0] in idle;
      ExpiringIs(c, idle[1..], total - 1, i - 1, now);
    } else if idle != [] {
      assert idle[0] in idle;
    }
  }

  /** A caller is given the connection used least recently of those that are left, and those behind it stay idle.
      It is to be checked if MySQL is told to ping on borrowing, or if Redis has a check interval and it has not
      been used for that long. With none left a new one is reserved exactly when the limit is not reached. */
  lemma AskExactly(c: Config, s: State, k: nat, now: nat, i: nat)
    requires Usable(c) && Inv(c, s) && Enabled(s, Ask(k, now)) && FirstLeft(c, s.idle, s.total, i, now)
    ensures var s' := Apply(c, s, Ask(k, now));
            if i < |s.idle| then
              && s'.idle == s.idle[i + 1..] && s'.total == s.total - i
              && s'.loans == s.loans[k := Checking(s.idle[i].handle,
                   if c.kind == MySql then c.pingOnBorrow
                   else c.healthCheckMs > 0 && now - s.idle[i].lastUsed >= c.healthCheckMs * 1_000_000)]
            else if s.total - i < (if c.autoGrow then c.maxSize else c.minSize) then
              s'.idle == [] && s'.total == s.total - i + 1 && s'.loans == s.loans[k := Creating]
            else s'.idle == [] && s'.total == s.total - i && s'.loans == s.loans
  {
    forall e | e in s.idle ensures e.lastUsed <= now {
      var j :| 0 <= j < |s.idle| && s.idle[j] == e;
      assert s.idle[j].lastUsed <= s.clock;
    }
    ExpiringIs(c, s.idle, s.total, i, now);
    AskWith(c, s, k, now, i);
  }

  lemma AskWith(c: Config, s: State, k: nat, now: nat, n: nat)
    requires Usable(c) && n <= |s.idle| && n == Expiring(c, s.idle, s.total, now)
    requires n < |s.idle| ==> s.idle[n].lastUsed <= now
    ensures var s' := OnAsk(c, s, k, now);
            if n < |s.idle| then
              && s'.idle == s.idle[n + 1..] && s'.total == s.total - n
              && s'.loans == s.loans[k := Checking(s.idle[n].handle,
                   if c.kind == MySql then c.pingOnBorrow
                   else c.healthCheckMs > 0 && now - s.idle[n].lastUsed >= c.healthCheckMs * 1_000_000)]
            else if s.total - n < (if c.autoGrow then c.maxSize else c.minSize) then
              s'.idle == [] && s'.total == s.total - n + 1 && s'.loans == s.loans[k := Creating]
            else s'.idle == [] && s'.total == s.total - n && s'.loans == s.loans
  {
    var left := s.idle[n..];
    assert n < |s.idle| ==> left[0] == s.idle[n] && left[1..] == s.idle[n + 1..];
  }

  /** A new connection is lent without a check; a failed attempt gives its place back. */
  lemma CreatedExactly(c: Config, s: State, k: nat, h: Handle, alive: bool)
    requires Enabled(s, Created(k, Some(h)))
    ensures Enabled(Apply(c, s, Created(k, Some(h))), Checked(k, alive))
    ensures var s' := Apply(c, Apply(c, s, Created(k, Some(h))), Checked(k, alive));
            if s.stopping then s'.total == s.total - 1 && s'.loans == s.loans - {k}
            else s'.total == s.total && s'.loans == s.loans[k := Lent(h)]
    ensures Apply(c, s, Created(k, None)) == s.(total := s.total - 1, loans := s.loans - {k})
  {
    assert s.loans[k := Checking(h, false)][k := Lent(h)] == s.loans[k := Lent(h)];
    assert s.loans[k := Checking(h, false)] - {k} == s.loans - {k};
  }

  /** A connection is lent after its check if and only if the pool is not stopping and it answered or did not
      have to; otherwise it is gone and its place is free. */
  lemma CheckedExactly(c: Config, s: State, k: nat, alive: bool)
    requires Inv(c, s) && Enabled(s, Checked(k, alive))
    ensures var s' := Apply(c, s, Checked(k, alive));
            && (k in s'.loans <==> !s.stopping && (alive || !s.loans[k].mustPing))
            && (k in s'.loans ==> s' == s.(loans := s.loans[k := Lent(s.loans[k].handle)]))
            && (k !in s'.loans ==> !Occurs(s', s.loans[k].handle) && s' == s.(loans := s.loans - {k}, total := s.total - 1))
  {
    var s' := Apply(c, s, Checked(k, alive));
    if k !in s'.loans {
      assert forall e | e in s.idle :: e.handle != s.loans[k].handle by {
        forall e | e in s.idle ensures e.handle != s.loans[k].handle {
          var i :| 0 <= i < |s.idle| && s.idle[i] == e;
          assert !HasHandle(s.loans[k], s.idle[i].handle);
        }
      }
    }
  }

  /** A returned connection is the last in the idle queue, stamped with the time, unless the pool is stopping or
      it is a Redis connection in error; then it is gone and its place is free. */
  lemma GiveBackExactly(c: Config, s: State, k: nat, now: nat, broken: bool)
    requires Inv(c, s) && Enabled(s, GiveBack(k, now, broken))
    ensures var s' := Apply(c, s, GiveBack(k, now, broken));
            var h := s.loans[k].handle;
            && s'.loans == s.loans - {k}
            && (s'.idle == s.idle + [Entry(h, now)] && s'.total == s.total <==> !s.stopping && (c.kind == MySql || !broken))
            && (s.stopping || (c.kind == Redis && broken) ==> !Occurs(s', h) && s'.idle == s.idle && s'.total == s.total - 1)
  {
    LoanRemoved(s.loans, k);
    var h := s.loans[k].handle;
    forall e | e in s.idle ensures e.handle != h {
      var i :| 0 <= i < |s.idle| && s.idle[i] == e;
      assert !HasHandle(s.loans[k], s.idle[i].handle);
    }
  }

  /** No step but a connect brings a connection into the pool. */
  lemma AbsentStep(c: Config, s: State, step: Step, h: Handle)
    requires Enabled(s, step) && !Occurs(s, h) && !(step.Created? && step.conn == Some(h))
    ensures !Occurs(Apply(c, s, step), h)
  {
    var s' := Apply(c, s, step);
    if step.Ask? {
      var n := Expiring(c, s.idle, s.total, step.now);
      forall e | e in s.idle[n..] ensures e.handle != h {
        assert e in s.idle;
      }
    }
  }

  lemma {:induction false} AbsentStays(c: Config, s: State, steps: seq<Step>, h: Handle)
    requires !Occurs(s, h) && forall i | 0 <= i < |steps| :: !(steps[i].Created? && steps[i].conn == Some(h))
    ensures !Occurs(Run(c, s, steps), h)
  {
    if steps != [] {
      var n := |steps| - 1;
      AbsentStays(c, s, steps[..n], h);
      if Enabled(Run(c, s, steps[..n]), steps[n]) {
        AbsentStep(c, Run(c, s, steps[..n]), steps[n], h);
      }
    }
  }

  /** A connection that has failed a check it had to pass is with no caller and not idle in any run that follows,
      until a connect brings it in again; the same holds for a Redis connection returned in error. */
  lemma DeadStaysOut(c: Config, s: State, before: seq<Step>, k: nat, now: nat, after: seq<Step>)
    requires Usable(c) && Inv(c, s)
    requires var t := Run(c, s, before);
             && k in t.loans && !t.loans[k].Creating?
             && (forall i | 0 <= i < |after| :: !(after[i].Created? && after[i].conn == Some(t.loans[k].handle)))
    ensures var t := Run(c, s, before);
            t.loans[k].Checking? && t.loans[k].mustPing ==>
              !Occurs(Run(c, Apply(c, t, Checked(k, false)), after), t.loans[k].handle)
    ensures var t := Run(c, s, before);
            t.loans[k].Lent? && t.clock <= now && c.kind == Redis ==>
              !Occurs(Run(c, Apply(c, t, GiveBack(k, now, true)), after), t.loans[k].handle)
  {
    RunInv(c, s, before);
    var t := Run(c, s, before);
    if t.loans[k].Checking? && t.loans[k].mustPing {
      CheckedExactly(c, t, k, false);
      AbsentStays(c, Apply(c, t, Checked(k, false)), after, t.loans[k].handle);
    }
    if t.loans[k].Lent? && t.clock <= now && c.kind == Redis {
      GiveBackExactly(c, t, k, now, true);
      AbsentStays(c, Apply(c, t, GiveBack(k, now, true)), after, t.loans[k].handle);
    }
  }

  /** Unless callers hold the whole capacity, a caller of a running pool gets a connection when connects and
      checks succeed. */
  lemma ServedWhenHealthy(c: Config, s: State, k: nat, now: nat, h: Handle)
    requires Usable(c) && Inv(c, s) && Enabled(s, Ask(k, now)) && !Occurs(s, h)
    requires s.idle != [] || |s.loans| < (if c.autoGrow then c.maxSize else c.minSize)
    ensures var s' := Run(c, s, [Ask(k, now), Created(k, Some(h)), Checked(k, true)]);
            k in s'.loans && s'.loans[k].Lent? && !s'.stopping
  {
    var s1 := Apply(c, s, Ask(k, now));
    var steps := [Ask(k, now), Created(k, Some(h)), Checked(k, true)];
    BlockedExactlyWhen(c, s, k, now);
    AbsentStep(c, s, Ask(k, now), h);
    assert steps[..2][..1] == [Ask(k, now)] && steps[..2][1] == steps[1] && [Ask(k, now)][..0] == [];
    assert Run(c, s, [Ask(k, now)]) == s1;
    assert Run(c, s, steps[..2]) == if s1.loans[k].Creating? then Apply(c, s1, steps[1]) else s1;
  }

  /** Once stopped the pool lends nothing more, and its count never rises. */
  lemma {:induction false} StoppedOnlyShrinks(c: Config, s: State, steps: seq<Step>)
    requires Usable(c) && Inv(c, s) && s.stopping
    ensures var after := Run(c, s, steps);
            && after.stopping && after.total <= s.total && after.loans.Keys <= s.loans.Keys && after.idle == s.idle
            && (forall k | k in after.loans && after.loans[k].Lent? :: s.loans[k] == after.loans[k])
  {
    if steps != [] {
      StoppedOnlyShrinks(c, s, steps[..|steps| - 1]);
    }
  }

  /** After Stop only callers that had a connection before still have one. */
  lemma NothingLentAfterStop(c: Config, s: State, steps: seq<Step>, k: nat)
    requires Usable(c) && Inv(c, s) && k in Run(c, Apply(c, s, Halt), steps).loans
    ensures var loan := Run(c, Apply(c, s, Halt), steps).loans[k];
            loan.Lent? ==> k in s.loans && s.loans[k] == loan
  {
    StoppedOnlyShrinks(c, Apply(c, s, Halt), steps);
  }

  /** When every caller is done with a stopped pool, only the idle connections are left in the count. */
  lemma StoppedDrains(c: Config, s: State, steps: seq<Step>)
    requires Usable(c) && Inv(c, s) && s.stopping && Run(c, s, steps).loans == map[]
    ensures Run(c, s, steps).total == |s.idle|
  {
    RunInv(c, s, steps);
    StoppedOnlyShrinks(c, s, steps);
  }

  // ----- starting

  /** The state after Init, from the connections it made and the times at which it made them. */
  function Started(c: Config, made: nat -> Option<Handle>, times: nat -> nat): State
    requires c.minSize >= 0 && forall i | 0 <= i < c.minSize :: made(i).Some?
  {
    State(seq(c.minSize, i requires 0 <= i < c.minSize => Entry(made(i).value, times(i))), c.minSize, true, false, map[],
          if c.minSize == 0 then 0 else times(c.minSize - 1))
  }

  lemma StartInv(c: Config, made: nat -> Option<Handle>, times: nat -> nat)
    requires Usable(c) && forall i | 0 <= i < c.minSize :: made(i).Some?
    requires forall i, j | 0 <= i < j < c.minSize :: made(i) != made(j) && times(i) <= times(j)
    ensures Inv(c, Started(c, made, times))
  {
  }

  // ----- the pool in the form of the source

  datatype Turn = Taken(handle: Handle, mustPing: bool) | Reserved | MustWait

  class Pool {
    var cfg: Config
    var idle: seq<Entry>
    var total: int
    var inited: bool
    var stopping: bool
    ghost var loans: map<nat, Loan>
    ghost var clock: nat

    constructor (cfg: Config)
      ensures this.cfg == cfg && View() == State([], 0, false, false, map[], 0)
    {
      this.cfg := cfg;
      idle, total, inited, stopping, loans, clock := [], 0, false, false, map[], 0;
    }

    ghost function View(): State
      reads this
    {
      State(idle, total, inited, stopping, loans, clock)
    }

    /** Opens the minimum number of connections, or closes again those it had was. */
    method Init(config: Config, made: nat -> Option<Handle>, times: nat -> nat) returns (ok: bool, closed: seq<Handle>)
      requires loans == map[]
      modifies this
      ensures old(inited) ==> ok == (config.kind == MySql || !stopping) && View() == old(View()) && closed == []
      ensures !old(inited) ==> cfg == Normalised(config)
      ensures !old(inited) ==> ok == (forall i | 0 <= i < cfg.minSize :: made(i).Some?)
      ensures !old(inited) && ok ==> View() == Started(cfg, made, times) && closed == []
      ensures !old(inited) && !ok ==>
                && idle == [] && total == 0 && !inited && stopping == old(stopping)
                && |closed| < cfg.minSize && made(|closed|).None?
                && forall i | 0 <= i < |closed| :: made(i) == Some(closed[i])
    {
      closed := [];
      if inited {
        return config.kind == MySql || !stopping, closed;
      }
      cfg := Normalised(config);
      NormalisedSizes(config);
      idle, total := [], 0;
      var i := 0;
      while i < cfg.minSize
        invariant cfg == Normalised(config) && 0 <= i <= cfg.minSize && total == i == |idle|
        invariant !inited && stopping == old(stopping) && loans == map[]
        invariant forall j | 0 <= j < i :: made(j) == Some(idle[j].handle) && idle[j].lastUsed == times(j)
      {
        var conn := made(i);
        if conn.None? {
          ghost var was := idle;
          while idle != []
            invariant cfg == Normalised(config) && !inited && stopping == old(stopping)
            invariant |closed| + |idle| == i && idle == was[|closed|..]
            invariant forall j | 0 <= j < |closed| :: closed[j] == was[j].handle
            decreases |idle|
          {
            closed := closed + [idle[0].handle];
            idle := idle[1..];
          }
          total := 0;
          return false, closed;
        }
        idle := idle + [Entry(conn.value, times(i))];
        total := total + 1;
        i := i + 1;
      }
      inited, stopping := true, false;
      clock := times(cfg.minSize - 1);
      return true, closed;
    }

    method CleanupIdle(now: nat)
      requires InOrder(View()) && clock <= now
      modifies this`idle, this`total
      ensures var n := Expiring(cfg, old(idle), old(total), now);
              idle == old(idle)[n..] && total == old(total) - n
    {
      if cfg.idleTimeoutMs <= 0 {
        return;
      }
      while idle != []
        invariant InOrder(View())
        invariant Expiring(cfg, old(idle), old(total), now) == |old(idle)| - |idle| + Expiring(cfg, idle, total, now)
        invariant |idle| <= |old(idle)| && idle == old(idle)[|old(idle)| - |idle|..]
        invariant total == old(total) - (|old(idle)| - |idle|)
        decreases |idle|
      {
        var idleMs := (now - idle[0].lastUsed) / 1_000_000;
        if idleMs < cfg.idleTimeoutMs || total <= cfg.minSize {
          break;
        }
        assert Expired(cfg, idle[0], now) && total > cfg.minSize;
        assert old(idle)[|old(idle)| - |idle|..][1..] == old(idle)[|old(idle)| - |idle| + 1..];
        idle := idle[1..];
        total := total - 1;
      }
    }

    /** The first section of Acquire under the lock: take an idle connection or reserve room for a new one. */
    method TakeOrReserve(ghost caller: nat, now: nat) returns (turn: Turn)
      requires Enabled(View(), Ask(caller, now)) && InOrder(View())
      modifies this
      ensures cfg == old(cfg) && View() == Apply(cfg, old(View()), Ask(caller, now))
      ensures turn == if caller !in loans then MustWait
                      else if loans[caller].Creating? then Reserved
                      else if loans[caller].Checking? then Taken(loans[caller].handle, loans[caller].mustPing)
                      else MustWait
    {
      CleanupIdle(now);
      clock := now;
      if idle != [] {
        var entry := idle[0];
        idle := idle[1..];
        var mustPing := MustPing(cfg, entry, now);
        loans := loans[caller := Checking(entry.handle, mustPing)];
        return Taken(entry.handle, mustPing);
      }
      if total < cfg.minSize || (cfg.autoGrow && total < cfg.maxSize) {
        total := total + 1;
        loans := loans[caller := Creating];
        return Reserved;
      }
      return MustWait;
    }

    /** Back under the lock after connecting. */
    method AfterCreate(ghost caller: nat, conn: Option<Handle>)
      requires Enabled(View(), Created(caller, conn))
      modifies this
      ensures cfg == old(cfg) && View() == Apply(cfg, old(View()), Created(caller, conn))
    {
      if conn.None? {
        total := total - 1;
        loans := loans - {caller};
      } else {
        loans := loans[caller := Checking(conn.value, false)];
      }
    }

    /** Back under the lock after the check: hand the connection out, or give up its place. */
    method AfterCheck(ghost caller: nat, handle: Handle, mustPing: bool, alive: bool) returns (lent: bool)
      requires Enabled(View(), Checked(caller, alive)) && loans[caller] == Checking(handle, mustPing)
      modifies this
      ensures cfg == old(cfg) && View() == Apply(cfg, old(View()), Checked(caller, alive))
      ensures lent <==> caller in loans
    {
      var valid := !mustPing || alive;
      if valid && !stopping {
        loans := loans[caller := Lent(handle)];
        return true;
      }
      total := total - 1;
      loans := loans - {caller};
      return false;
    }

    method Release(ghost caller: nat, handle: Handle, now: nat, broken: bool)
      requires Enabled(View(), GiveBack(caller, now, broken)) && loans[caller] == Lent(handle)
      modifies this
      ensures cfg == old(cfg) && View() == Apply(cfg, old(View()), GiveBack(caller, now, broken))
    {
      loans := loans - {caller};
      clock := now;
      if stopping || (cfg.kind == Redis && broken) {
        if total > 0 {
          total := total - 1;
        }
        return;
      }
      idle := idle + [Entry(handle, now)];
    }

    method Stop()
      modifies this`stopping
      ensures View() == Apply(cfg, old(View()), Halt)
    {
      stopping := true;
    }
  }
}
