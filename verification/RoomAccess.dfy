/** Revocation against joins and room pushes. A join or push takes a snapshot of a generation counter, waits
    for an authorization answer, and re-checks the counter in the callback of its connection's IO loop.
    Counter check and effect are separate lock-held sections of that callback; callbacks of one connection
    never overlap, everything else interleaves. */
module RoomAccess {
  import opened Basics
  import opened RoomTables

  type Key = (int, int)

  /** One join or one push to a user. `at` and `opsAt` are the lengths of the histories when the snapshot
      was taken. */
  datatype Ticket = Ticket(isJoin: bool, room: int, user: int, conn: int, generation: nat, at: nat,
                           joinGeneration: nat, opsAt: nat, answer: Option<bool>)

  /** A callback that has passed its checks and not yet acted: its ticket and when it checked. */
  datatype Passed = Passed(ticket: nat, checkedAt: nat)

  /** A join that added its connection, or a frame that was sent. */
  datatype Effect = Effect(ticket: nat, conn: int, checkedAt: nat, actedAt: nat, opsAt: nat)

  /** How many effects and revocations there were when a user was last removed from a room. */
  datatype Removal = Removal(effects: nat, revoked: nat)

  /** `revoked`, `ops` and `removals` are history: every RevokeRoomUser, every join, leave or revocation callback
      that bumped the join generation of a connection for a room, and the last removal of every user. */
  datatype State = State(rooms: Rooms, generation: map<Key, nat>, joinGeneration: map<Key, nat>, owner: map<int, int>,
                         closed: set<int>, revoked: seq<Key>, ops: seq<Key>, tickets: seq<Ticket>,
                         passed: map<int, Passed>, effects: seq<Effect>, removals: map<Key, Removal>)

  const START := State(EMPTY, map[], map[], map[], {}, [], [], [], map[], [], map[])

  datatype Step =
    | Connect(conn: int, user: int)
    | Disconnect(conn: int, order: seq<int>)
    | JoinRequest(conn: int, room: int)
    | LeaveRequest(conn: int, room: int)
    | RevokedCallback(conn: int, room: int)
    | PushRequest(room: int, user: int)
    | Answer(ticket: nat, allowed: bool)
    | Check(ticket: nat, conn: int)
    | Act(conn: int)
    | RevokeMark(room: int, user: int)
    | RevokeRemove(room: int, user: int)

  function Get(m: map<Key, nat>, k: Key): nat {
    if k in m then m[k] else 0
  }

  function Bump(m: map<Key, nat>, k: Key): map<Key, nat> {
    m[k := Get(m, k) + 1]
  }

  predicate Free(s: State, conn: int) {
    conn in s.owner && conn !in s.passed
  }

  /** The checks of the callback. */
  predicate Passes(s: State, t: Ticket, conn: int) {
    && t.answer == Some(true) && Get(s.generation, (t.room, t.user)) == t.generation
    && (t.isJoin ==> conn == t.conn && Get(s.joinGeneration, (conn, t.room)) == t.joinGeneration)
  }

  predicate Enabled(s: State, step: Step) {
    match step
    case Connect(c, _) => c !in s.owner && c !in s.closed && c !in s.passed
    case Disconnect(c, order) =>
      Free(s, c) && forall r | r in s.rooms.conns && s.owner[c] in s.rooms.conns[r] :: r in order
    case JoinRequest(c, _) => Free(s, c)
    case LeaveRequest(c, _) => Free(s, c)
    case RevokedCallback(c, _) => Free(s, c)
    case PushRequest(_, _) => true
    case Answer(i, _) => i < |s.tickets| && s.tickets[i].answer == None
    case Check(i, c) => i < |s.tickets| && Free(s, c) && Passes(s, s.tickets[i], c)
    case Act(c) => c in s.passed && s.passed[c].ticket < |s.tickets|
    case RevokeMark(_, _) => true
    case RevokeRemove(_, _) => true
  }

  /** OnConnection: the closed connection leaves every room its user is in. */
  function LeaveAll(rooms: Rooms, user: int, conn: int, order: seq<int>): Rooms
    decreases |order|
  {
    if order == [] then rooms else LeaveAll(Leave(rooms, order[0], user, conn), user, conn, order[1..])
  }

  function BumpOps(s: State, conn: int, room: int): State {
    s.(joinGeneration := Bump(s.joinGeneration, (conn, room)), ops := s.ops + [(conn, room)])
  }

  function NewTicket(s: State, isJoin: bool, room: int, user: int, conn: int): Ticket {
    Ticket(isJoin, room, user, conn, Get(s.generation, (room, user)), |s.revoked|,
           Get(s.joinGeneration, (conn, room)), |s.ops|, None)
  }

  function Apply(s: State, step: Step): State {
    if !Enabled(s, step) then s
    else
      match step
      case Connect(c, u) => s.(owner := s.owner[c := u])
      case Disconnect(c, order) =>
        s.(rooms := LeaveAll(s.rooms, s.owner[c], c, order), owner := s.owner - {c}, closed := s.closed + {c})
      case JoinRequest(c, r) =>
        var s' := BumpOps(s, c, r);
        s'.(tickets := s.tickets + [NewTicket(s', true, r, s.owner[c], c)])
      case LeaveRequest(c, r) => BumpOps(s, c, r).(rooms := Leave(s.rooms, r, s.owner[c], c))
      case RevokedCallback(c, r) => BumpOps(s, c, r)
      case PushRequest(r, u) => s.(tickets := s.tickets + [NewTicket(s, false, r, u, 0)])
      case Answer(i, allowed) => s.(tickets := s.tickets[i := s.tickets[i].(answer := Some(allowed))])
      case Check(i, c) => s.(passed := s.passed[c := Passed(i, |s.revoked|)])
      case Act(c) =>
        var p := s.passed[c];
        var t := s.tickets[p.ticket];
        s.(rooms := if t.isJoin then Add(s.rooms, t.room, t.user, c) else s.rooms, passed := s.passed - {c},
        effects := s.effects + [Effect(p.ticket, c, p.checkedAt, |s.revoked|, |s.ops|)])
      case RevokeMark(r, u) => s.(generation := Bump(s.generation, (r, u)), revoked := s.revoked + [(r, u)])
      case RevokeRemove(r, u) =>
        s.(rooms := Remove(s.rooms, r, u), removals := s.removals[(r, u) := Removal(|s.effects|, |s.revoked|)])
  }

  function Run(s: State, steps: seq<Step>): State
    decreases |steps|
  {
    if steps == [] then s else Run(Apply(s, steps[0]), steps[1..])
  }

  // ----- counting

  function Count(xs: seq<Key>, k: Key): nat {
    if xs == [] then 0 else Count(xs[..|xs| - 1], k) + if xs[|xs| - 1] == k then 1 else 0
  }

  predicate NoneIn(xs: seq<Key>, k: Key, from: nat, to: nat) {
    from <= to <= |xs| && forall i | from <= i < to :: xs[i] != k
  }

  /** A counter that has not moved means that nothing has happened. */
  lemma {:induction false} SameCount(xs: seq<Key>, k: Key, from: nat)
    requires from <= |xs|
    ensures Count(xs[..from], k) <= Count(xs, k)
    ensures Count(xs[..from], k) == Count(xs, k) <==> NoneIn(xs, k, from, |xs|)
    decreases |xs|
  {
    if from == |xs| {
      assert xs[..from] == xs;
    } else {
      var ys := xs[..|xs| - 1];
      assert ys[..from] == xs[..from];
      SameCount(ys, k, from);
    }
  }

  lemma CountAppend(xs: seq<Key>, x: Key, k: Key)
    ensures Count(xs + [x], k) == Count(xs, k) + if x == k then 1 else 0
  {
    assert (xs + [x])[..|xs|] == xs;
  }

  // ----- invariant

  ghost predicate CountersInv(s: State) {
    forall k :: Get(s.generation, k) == Count(s.revoked, k) && Get(s.joinGeneration, k) == Count(s.ops, k)
  }

  predicate TicketOk(s: State, t: Ticket) {
    && t.at <= |s.revoked| && t.generation == Count(s.revoked[..t.at], (t.room, t.user))
    && t.opsAt <= |s.ops| && t.joinGeneration == Count(s.ops[..t.opsAt], (t.conn, t.room))
    && (t.isJoin && t.conn in s.owner ==> s.owner[t.conn] == t.user)
    && (t.isJoin ==> t.conn in s.owner || t.conn in s.closed)
  }

  predicate PassedOk(s: State, conn: int, p: Passed) {
    && p.ticket < |s.tickets| && conn in s.owner
    && var t := s.tickets[p.ticket];
    && t.answer == Some(true)
    && p.checkedAt <= |s.revoked| && NoneIn(s.revoked, (t.room, t.user), t.at, p.checkedAt)
    && (t.isJoin ==> t.conn == conn && NoneIn(s.ops, (conn, t.room), t.opsAt, |s.ops|))
  }

  predicate EffectOk(s: State, e: Effect) {
    && e.ticket < |s.tickets|
    && var t := s.tickets[e.ticket];
    && t.answer == Some(true)
    && e.checkedAt <= e.actedAt <= |s.revoked| && NoneIn(s.revoked, (t.room, t.user), t.at, e.checkedAt)
    && (t.isJoin ==> t.conn == e.conn && NoneIn(s.ops, (e.conn, t.room), t.opsAt, e.opsAt))
  }

  ghost predicate ConnsLive(s: State) {
    forall r, u, c | c in Conns(s.rooms.conns, r, u) :: c in s.owner && s.owner[c] == u
  }

  predicate HistoryInv(s: State) {
    && (forall i | 0 <= i < |s.tickets| :: TicketOk(s, s.tickets[i]))
    && (forall c | c in s.passed :: PassedOk(s, c, s.passed[c]))
    && (forall i | 0 <= i < |s.effects| :: EffectOk(s, s.effects[i]))
    && (forall c | c in s.closed :: c !in s.owner)
  }

  ghost predicate TablesInv(s: State) {
    RoomTables.Inv(s.rooms) && ConnsLive(s)
  }

  lemma BumpCounts(counters: map<Key, nat>, history: seq<Key>, x: Key)
    requires forall k :: Get(counters, k) == Count(history, k)
    ensures forall k :: Get(Bump(counters, x), k) == Count(history + [x], k)
  {
    forall k ensures Get(Bump(counters, x), k) == Count(history + [x], k) {
      CountAppend(history, x, k);
    }
  }

  lemma CountersStep(s: State, step: Step)
    requires CountersInv(s)
    ensures CountersInv(Apply(s, step))
  {
    match step
    case JoinRequest(c, r) => BumpCounts(s.joinGeneration, s.ops, (c, r));
    case LeaveRequest(c, r) => BumpCounts(s.joinGeneration, s.ops, (c, r));
    case RevokedCallback(c, r) => BumpCounts(s.joinGeneration, s.ops, (c, r));
    case RevokeMark(r, u) => BumpCounts(s.generation, s.revoked, (r, u));
    case _ =>
  }

  /** Histories only grow, so what was true of an earlier stretch stays true. */
  lemma TicketStep(s: State, step: Step, t: Ticket)
    requires TicketOk(s, t) && (forall c | c in s.closed :: c !in s.owner)
    ensures TicketOk(Apply(s, step), t)
  {
    var s' := Apply(s, step);
    assert s'.revoked[..t.at] == s.revoked[..t.at];
    assert s'.ops[..t.opsAt] == s.ops[..t.opsAt];
  }

  lemma NewTicketOk(s: State, isJoin: bool, room: int, user: int, conn: int)
    requires CountersInv(s) && (isJoin ==> conn in s.owner && s.owner[conn] == user)
    ensures TicketOk(s, NewTicket(s, isJoin, room, user, conn))
  {
    assert s.revoked[..|s.revoked|] == s.revoked && s.ops[..|s.ops|] == s.ops;
  }

  lemma TicketsStep(s: State, step: Step)
    requires CountersInv(s) && HistoryInv(s)
    ensures var s' := Apply(s, step);
            forall i | 0 <= i < |s'.tickets| :: TicketOk(s', s'.tickets[i])
  {
    var s' := Apply(s, step);
    forall i | 0 <= i < |s'.tickets| ensures TicketOk(s', s'.tickets[i]) {
      if i < |s.tickets| {
        assert TicketOk(s, s.tickets[i]);
        TicketStep(s, step, s.tickets[i]);
      } else {
        CountersStep(s, step);
        if step.JoinRequest? {
          NewTicketOk(BumpOps(s, step.conn, step.room), true, step.room, s.owner[step.conn], step.conn) by {
            forall k
              ensures Get(BumpOps(s, step.conn, step.room).joinGeneration, k) == Count(BumpOps(s, step.conn, step.room).ops, k)
            {
              CountAppend(s.ops, (step.conn, step.room), k);
            }
          }
        } else {
          NewTicketOk(s, false, step.room, step.user, 0);
        }
      }
    }
  }

  lemma PassedStep(s: State, step: Step, c: int)
    requires HistoryInv(s) && c in s.passed && c in Apply(s, step).passed
    requires !(Enabled(s, step) && step.Check? && step.conn == c)
    ensures PassedOk(Apply(s, step), c, Apply(s, step).passed[c])
  {
    assert PassedOk(s, c, s.passed[c]);
  }

  lemma CheckOk(s: State, i: nat, c: int)
    requires CountersInv(s) && HistoryInv(s) && Enabled(s, Check(i, c))
    ensures PassedOk(Apply(s, Check(i, c)), c, Passed(i, |s.revoked|))
  {
    var t := s.tickets[i];
    assert TicketOk(s, t);
    SameCount(s.revoked, (t.room, t.user), t.at);
    SameCount(s.ops, (t.conn, t.room), t.opsAt);
  }

  lemma EffectStep(s: State, step: Step, e: Effect)
    requires EffectOk(s, e)
    ensures EffectOk(Apply(s, step), e)
  {
  }

  lemma HistoryStep(s: State, step: Step)
    requires CountersInv(s) && HistoryInv(s)
    ensures HistoryInv(Apply(s, step))
  {
    var s' := Apply(s, step);
    TicketsStep(s, step);
    forall c | c in s'.passed ensures PassedOk(s', c, s'.passed[c]) {
      if Enabled(s, step) && step.Check? && step.conn == c {
        CheckOk(s, step.ticket, c);
      } else {
        PassedStep(s, step, c);
      }
    }
    forall i | 0 <= i < |s'.effects| ensures EffectOk(s', s'.effects[i]) {
      if i < |s.effects| {
        assert EffectOk(s, s.effects[i]);
        EffectStep(s, step, s.effects[i]);
      } else {
        assert PassedOk(s, step.conn, s.passed[step.conn]);
      }
    }
  }

  lemma {:induction false} LeaveAllInv(rooms: Rooms, user: int, conn: int, order: seq<int>)
    requires RoomTables.Inv(rooms)
    ensures RoomTables.Inv(LeaveAll(rooms, user, conn, order))
    ensures forall r, u :: Conns(LeaveAll(rooms, user, conn, order).conns, r, u) ==
                           if u == user && r in order then Conns(rooms.conns, r, u) - {conn} else Conns(rooms.conns, r, u)
    decreases |order|
  {
    if order != [] {
      var next := Leave(rooms, order[0], user, conn);
      OpInv(rooms, next, order[0], user, conn);
      LeaveAllInv(next, user, conn, order[1..]);
      forall r, u
        ensures Conns(LeaveAll(rooms, user, conn, order).conns, r, u) ==
                if u == user && r in order then Conns(rooms.conns, r, u) - {conn} else Conns(rooms.conns, r, u)
      {
        Effects(rooms, order[0], user, conn, r, u);
      }
    }
  }

  lemma ChangedTables(s: State, s': State, r: int, u: int, c: int)
    requires TablesInv(s)
    requires s'.rooms == Add(s.rooms, r, u, c) || s'.rooms == Leave(s.rooms, r, u, c) || s'.rooms == Remove(s.rooms, r, u)
    requires s'.owner == s.owner && (s'.rooms == Add(s.rooms, r, u, c) ==> c in s.owner && s.owner[c] == u)
    ensures TablesInv(s')
  {
    OpInv(s.rooms, s'.rooms, r, u, c);
    ChangedConns(s, s', r, u, c);
  }

  lemma ChangedConns(s: State, s': State, r: int, u: int, c: int)
    requires IndexExact(s.rooms) && ConnsLive(s)
    requires s'.rooms == Add(s.rooms, r, u, c) || s'.rooms == Leave(s.rooms, r, u, c) || s'.rooms == Remove(s.rooms, r, u)
    requires s'.owner == s.owner && (s'.rooms == Add(s.rooms, r, u, c) ==> c in s.owner && s.owner[c] == u)
    ensures ConnsLive(s')
  {
    forall q, v, d | d in Conns(s'.rooms.conns, q, v) ensures d in s'.owner && s'.owner[d] == v {
      Effects(s.rooms, r, u, c, q, v);
      if d in Conns(s.rooms.conns, q, v) {
        assert s.owner[d] == v;
      }
    }
  }

  lemma ClosedTables(s: State, c: int, order: seq<int>)
    requires TablesInv(s) && Enabled(s, Disconnect(c, order))
    ensures TablesInv(Apply(s, Disconnect(c, order)))
  {
    var s' := Apply(s, Disconnect(c, order));
    LeaveAllInv(s.rooms, s.owner[c], c, order);
    forall q, v, d | d in Conns(s'.rooms.conns, q, v) ensures d in s'.owner && s'.owner[d] == v {
      assert d in Conns(s.rooms.conns, q, v);
    }
  }

  lemma TablesStep(s: State, step: Step)
    requires TablesInv(s) && HistoryInv(s)
    ensures TablesInv(Apply(s, step))
  {
    var s' := Apply(s, step);
    if Enabled(s, step) {
      match step
      case Disconnect(c, order) => ClosedTables(s, c, order);
      case LeaveRequest(c, r) => ChangedTables(s, s', r, s.owner[c], c);
      case RevokeRemove(r, u) => ChangedTables(s, s', r, u, 0);
      case Act(c) =>
        assert PassedOk(s, c, s.passed[c]);
        var t := s.tickets[s.passed[c].ticket];
        assert TicketOk(s, t);
        if t.isJoin {
          ChangedTables(s, s', t.room, t.user, c);
        }
      case _ =>
    }
  }

  // ----- what backs a connection in a room

  function LastRemoval(s: State, r: int, u: int): Removal {
    if (r, u) in s.removals then s.removals[(r, u)] else Removal(0, 0)
  }

  /** A join of this connection took effect after the last removal of its user from the room. */
  predicate BackedBy(s: State, r: int, u: int, c: int, i: nat) {
    && LastRemoval(s, r, u).effects <= i < |s.effects| && s.effects[i].conn == c
    && LastRemoval(s, r, u).revoked <= s.effects[i].actedAt
    && s.effects[i].ticket < |s.tickets|
    && var t := s.tickets[s.effects[i].ticket];
    && t.isJoin && t.room == r && t.user == u
  }

  ghost predicate Backed(s: State, r: int, u: int, c: int) {
    exists i: nat :: BackedBy(s, r, u, c, i)
  }

  ghost predicate BackedInv(s: State) {
    && (forall r, u, c | c in Conns(s.rooms.conns, r, u) :: Backed(s, r, u, c))
    && (forall r, u :: LastRemoval(s, r, u).effects <= |s.effects| && LastRemoval(s, r, u).revoked <= |s.revoked|)
  }

  lemma BackedStays(s: State, step: Step, r: int, u: int, c: int)
    requires Backed(s, r, u, c) && step != RevokeRemove(r, u)
    ensures Backed(Apply(s, step), r, u, c)
  {
    var i: nat :| BackedBy(s, r, u, c, i);
    assert BackedBy(Apply(s, step), r, u, c, i);
  }

  lemma NewlyBacked(s: State, c: int)
    requires BackedInv(s) && Enabled(s, Act(c)) && s.tickets[s.passed[c].ticket].isJoin
    ensures var t := s.tickets[s.passed[c].ticket]; Backed(Apply(s, Act(c)), t.room, t.user, c)
  {
    var t, s' := s.tickets[s.passed[c].ticket], Apply(s, Act(c));
    assert LastRemoval(s', t.room, t.user) == LastRemoval(s, t.room, t.user);
    assert BackedBy(s', t.room, t.user, c, |s.effects|);
  }

  /** A connection that a step adds to a room was added by a join. */
  lemma OnlyJoinsAdd(s: State, step: Step, r: int, u: int, c: int)
    requires TablesInv(s) && c in Conns(Apply(s, step).rooms.conns, r, u) && c !in Conns(s.rooms.conns, r, u)
    ensures step == Act(c) && Enabled(s, step)
    ensures var t := s.tickets[s.passed[c].ticket]; t.isJoin && t.room == r && t.user == u
  {
    match step
    case Disconnect(d, order) =>
      if Enabled(s, step) {
        LeaveAllInv(s.rooms, s.owner[d], d, order);
      }
    case LeaveRequest(d, q) =>
      if Enabled(s, step) {
        Effects(s.rooms, q, s.owner[d], d, r, u);
      }
    case RevokeRemove(q, v) => Effects(s.rooms, q, v, 0, r, u);
    case Act(d) =>
      if Enabled(s, step) {
        var t := s.tickets[s.passed[d].ticket];
        Effects(s.rooms, t.room, t.user, d, r, u);
      }
    case _ =>
  }

  lemma RemovedAll(s: State, r: int, u: int)
    requires TablesInv(s)
    ensures Conns(Apply(s, RevokeRemove(r, u)).rooms.conns, r, u) == {}
  {
    Effects(s.rooms, r, u, 0, r, u);
  }

  lemma BackedStep(s: State, step: Step)
    requires BackedInv(s) && TablesInv(s)
    ensures BackedInv(Apply(s, step))
  {
    var s' := Apply(s, step);
    forall r, u, c | c in Conns(s'.rooms.conns, r, u) ensures Backed(s', r, u, c) {
      if c !in Conns(s.rooms.conns, r, u) {
        OnlyJoinsAdd(s, step, r, u, c);
        NewlyBacked(s, c);
      } else if step == RevokeRemove(r, u) {
        RemovedAll(s, r, u);
      } else {
        BackedStays(s, step, r, u, c);
      }
    }
    forall r, u
      ensures LastRemoval(s', r, u).effects <= |s'.effects| && LastRemoval(s', r, u).revoked <= |s'.revoked|
    {
      assert LastRemoval(s, r, u).effects <= |s.effects|;
    }
  }

  ghost predicate Inv(s: State) {
    CountersInv(s) && HistoryInv(s) && TablesInv(s) && BackedInv(s)
  }

  lemma {:induction false} RunInv(s: State, steps: seq<Step>)
    requires Inv(s)
    ensures Inv(Run(s, steps))
    decreases |steps|
  {
    if steps != [] {
      CountersStep(s, steps[0]);
      HistoryStep(s, steps[0]);
      TablesStep(s, steps[0]);
      BackedStep(s, steps[0]);
      RunInv(Apply(s, steps[0]), steps[1..]);
    }
  }

  // ----- results

  /** Every frame sent for a room and every join that took effect has a positive authorization answer
      asked for after its snapshot, and no revocation of that user in that room between the snapshot and
      the check of the callback. So the effect is unrevoked exactly when no revocation slipped in between
      the check and the effect; it always is when the callback is taken as one step. */
  lemma EffectsAreAuthorized(steps: seq<Step>, i: nat)
    requires i < |Run(START, steps).effects|
    ensures var s := Run(START, steps);
            var e := s.effects[i];
            && e.ticket < |s.tickets|
            && var t := s.tickets[e.ticket];
            && t.answer == Some(true) && NoneIn(s.revoked, (t.room, t.user), t.at, e.checkedAt)
            && e.checkedAt <= e.actedAt <= |s.revoked|
            && (NoneIn(s.revoked, (t.room, t.user), t.at, e.actedAt) <==>
                NoneIn(s.revoked, (t.room, t.user), e.checkedAt, e.actedAt))
            && (e.checkedAt == e.actedAt ==> NoneIn(s.revoked, (t.room, t.user), t.at, e.actedAt))
  {
    RunInv(START, steps);
    var s := Run(START, steps);
    assert EffectOk(s, s.effects[i]);
  }

  /** A join that took effect is the latest thing its connection did with that room: no join, leave or
      revocation callback on the connection came after the request. */
  lemma StaleJoinNeverAdds(steps: seq<Step>, i: nat)
    requires i < |Run(START, steps).effects|
    requires var s := Run(START, steps);
             s.effects[i].ticket < |s.tickets| && s.tickets[s.effects[i].ticket].isJoin
    ensures var s := Run(START, steps);
            var e := s.effects[i];
            var t := s.tickets[e.ticket];
            t.conn == e.conn && NoneIn(s.ops, (e.conn, t.room), t.opsAt, e.opsAt)
  {
    RunInv(START, steps);
    var s := Run(START, steps);
    assert EffectOk(s, s.effects[i]);
  }

  /** In every state the index agrees with the connections, and every connection in a room is open and
      belongs to the user it is listed under: a closed connection is in no room, whatever joins were
      still waiting for their answer when it closed. */
  lemma OnlyOpenConnections(steps: seq<Step>, r: int, u: int, c: int)
    requires c in Conns(Run(START, steps).rooms.conns, r, u)
    ensures var s := Run(START, steps);
            c in s.owner && s.owner[c] == u && c !in s.closed && InIndex(s.rooms.users, r, u)
  {
    RunInv(START, steps);
    var s := Run(START, steps);
    assert InIndex(s.rooms.users, r, u) <==> Conns(s.rooms.conns, r, u) != {};
  }

  // ----- what goes through

  /** A callback passes its checks exactly when the answer was positive and, since the request, its user was not revoked
      from the room and, for a join, its own connection has done nothing with the room. */
  lemma PassesExactlyWhen(steps: seq<Step>, i: nat, c: int)
    requires i < |Run(START, steps).tickets|
    ensures var s := Run(START, steps);
            var t := s.tickets[i];
            Enabled(s, Check(i, c)) <==>
              && c in s.owner && c !in s.passed && t.answer == Some(true)
              && NoneIn(s.revoked, (t.room, t.user), t.at, |s.revoked|)
              && (t.isJoin ==> c == t.conn && NoneIn(s.ops, (c, t.room), t.opsAt, |s.ops|))
  {
    RunInv(START, steps);
    PassesWhen(Run(START, steps), i, c);
  }

  lemma PassesWhen(s: State, i: nat, c: int)
    requires CountersInv(s) && HistoryInv(s) && i < |s.tickets|
    ensures var t := s.tickets[i];
            Enabled(s, Check(i, c)) <==>
              && c in s.owner && c !in s.passed && t.answer == Some(true)
              && NoneIn(s.revoked, (t.room, t.user), t.at, |s.revoked|)
              && (t.isJoin ==> c == t.conn && NoneIn(s.ops, (c, t.room), t.opsAt, |s.ops|))
  {
    assert TicketOk(s, s.tickets[i]);
    CountersUnmoved(s, s.tickets[i]);
  }

  /** The counters of a ticket's snapshot are those of now exactly if nothing has happened since. */
  lemma CountersUnmoved(s: State, t: Ticket)
    requires CountersInv(s) && TicketOk(s, t)
    ensures Get(s.generation, (t.room, t.user)) == t.generation <==> NoneIn(s.revoked, (t.room, t.user), t.at, |s.revoked|)
    ensures Get(s.joinGeneration, (t.conn, t.room)) == t.joinGeneration <==> NoneIn(s.ops, (t.conn, t.room), t.opsAt, |s.ops|)
  {
    SameCount(s.revoked, (t.room, t.user), t.at);
    SameCount(s.ops, (t.conn, t.room), t.opsAt);
  }

  /** A join that has passed puts its connection, and nothing else, into its room; a push that has passed is sent on its
      connection and leaves the rooms alone. */
  lemma PassedTakesEffect(s: State, i: nat, c: int, r: int, u: int)
    requires IndexExact(s.rooms) && i < |s.tickets| && Enabled(s, Check(i, c))
    ensures var t, s' := s.tickets[i], Apply(Apply(s, Check(i, c)), Act(c));
            && s'.effects == s.effects + [Effect(i, c, |s.revoked|, |s.revoked|, |s.ops|)] && s'.passed == s.passed
            && Conns(s'.rooms.conns, r, u) ==
                 if t.isJoin && r == t.room && u == t.user then Conns(s.rooms.conns, r, u) + {c} else Conns(s.rooms.conns, r, u)
  {
    var t := s.tickets[i];
    ActAfterCheck(s, i, c);
    if t.isJoin {
      Effects(s.rooms, t.room, t.user, c, r, u);
    }
  }

  lemma ActAfterCheck(s: State, i: nat, c: int)
    requires Enabled(s, Check(i, c))
    ensures var t, s' := s.tickets[i], Apply(Apply(s, Check(i, c)), Act(c));
            && s'.rooms == (if t.isJoin then Add(s.rooms, t.room, t.user, c) else s.rooms) && s'.passed == s.passed
            && s'.effects == s.effects + [Effect(i, c, |s.revoked|, |s.revoked|, |s.ops|)]
  {
    assert s.passed[c := Passed(i, |s.revoked|)] - {c} == s.passed;
  }

  /** A request is remembered with what has happened until then; its answer is awaited. */
  lemma RequestsAreRemembered(s: State, c: int, r: int, u: int)
    ensures c in s.owner && c !in s.passed ==>
              var s' := Apply(s, JoinRequest(c, r));
              && |s'.tickets| == |s.tickets| + 1 && s'.ops == s.ops + [(c, r)]
              && var t := s'.tickets[|s.tickets|];
                 && t.isJoin && t.room == r && t.user == s.owner[c] && t.conn == c
                 && t.at == |s.revoked| && t.opsAt == |s'.ops| && t.answer == None
    ensures var s' := Apply(s, PushRequest(r, u));
            && |s'.tickets| == |s.tickets| + 1
            && var t := s'.tickets[|s.tickets|];
               !t.isJoin && t.room == r && t.user == u && t.at == |s.revoked| && t.answer == None
  {
  }

  /** A leave and the callback of a revocation count as operations of the connection on the room, so that joins that are
      still waiting for their answer come too late. */
  lemma OperationsCount(s: State, c: int, r: int)
    requires c in s.owner && c !in s.passed
    ensures Apply(s, LeaveRequest(c, r)).ops == s.ops + [(c, r)]
    ensures Apply(s, RevokedCallback(c, r)).ops == s.ops + [(c, r)]
    ensures Apply(s, RevokedCallback(c, r)).rooms == s.rooms
  {
  }

  /** A leave takes its connection out of the room. */
  lemma LeaverIsOut(s: State, c: int, r: int)
    requires IndexExact(s.rooms) && c in s.owner && c !in s.passed
    ensures c !in Conns(Apply(s, LeaveRequest(c, r)).rooms.conns, r, s.owner[c])
  {
    Effects(s.rooms, r, s.owner[c], c, r, s.owner[c]);
  }

  /** A connection that closes leaves every room its user has connections in, and only that connection leaves. */
  lemma ClosedIsOut(s: State, c: int, order: seq<int>, r: int, u: int)
    requires TablesInv(s) && c in s.owner && c !in s.passed
    requires forall q | q in s.rooms.conns && s.owner[c] in s.rooms.conns[q] :: q in order
    ensures var s' := Apply(s, Disconnect(c, order));
            && c !in s'.owner && c in s'.closed
            && Conns(s'.rooms.conns, r, u) ==
                 if u == s.owner[c] then Conns(s.rooms.conns, r, u) - {c} else Conns(s.rooms.conns, r, u)
  {
    LeaveAllInv(s.rooms, s.owner[c], c, order);
  }

  /** A revocation is counted at once, and the removal that completes it takes every connection of the user out of the
      room and no other. */
  lemma RevokedIsOut(s: State, r: int, u: int, q: int, v: int)
    requires IndexExact(s.rooms)
    ensures Apply(s, RevokeMark(r, u)).revoked == s.revoked + [(r, u)]
    ensures Conns(Apply(s, RevokeRemove(r, u)).rooms.conns, q, v) == if q == r && v == u then {} else Conns(s.rooms.conns, q, v)
  {
    Effects(s.rooms, r, u, 0, q, v);
  }

  /** A revocation of this user in this room, from this one on, that has been completed by a removal. */
  predicate RevokedSince(s: State, r: int, u: int, from: nat) {
    exists j | from <= j < LastRemoval(s, r, u).revoked && j < |s.revoked| :: s.revoked[j] == (r, u)
  }

  /** A positively answered join, whose answer a completed revocation has made out of date exactly if that
      revocation came between the check and the effect. */
  predicate Explains(s: State, e: Effect)
    requires e.ticket < |s.tickets|
  {
    var t := s.tickets[e.ticket];
    && t.answer == Some(true) && LastRemoval(s, t.room, t.user).revoked <= e.actedAt
    && (RevokedSince(s, t.room, t.user, t.at) <==> RevokedSince(s, t.room, t.user, e.checkedAt))
  }

  lemma EffectExplains(s: State, r: int, u: int, c: int, i: nat)
    requires HistoryInv(s) && BackedBy(s, r, u, c, i)
    ensures Explains(s, s.effects[i])
  {
    assert EffectOk(s, s.effects[i]);
  }

  /** Every connection in a room is there by a join that took effect after the last removal of its user. The
      join was authorized before a completed revocation exactly if that revocation came after the check of
      the join's callback, and so between the check and the effect: only such users can be found in a room
      from which they have been revoked. */
  lemma WhoOutlivesRevocation(steps: seq<Step>, r: int, u: int, c: int)
    requires c in Conns(Run(START, steps).rooms.conns, r, u)
    ensures var s := Run(START, steps);
            exists i: nat :: BackedBy(s, r, u, c, i) && Explains(s, s.effects[i])
  {
    RunInv(START, steps);
    var s := Run(START, steps);
    assert Backed(s, r, u, c);
    var i: nat :| BackedBy(s, r, u, c, i);
    EffectExplains(s, r, u, c, i);
  }

  /** With the check and the effect in separate sections, a revocation can fall between them: the user
      is then in the room although the revocation is complete and the join's snapshot predates it. */
  lemma JoinCanOutliveRevocation()
    ensures exists steps ::
              var s := Run(START, steps);
              && InIndex(s.rooms.users, 7, 1) && s.revoked == [(7, 1)]
              && |s.tickets| == 1 && s.tickets[0].at == 0 && |s.effects| == 1 && s.passed == map[]
  {
    var steps := JoinChecked();
    steps := RevokedMeanwhile(steps);
    var s := Run(START, steps);
    steps := RunAppend(steps, Act(5));
    LateJoin(s, 5);
  }

  lemma RevokedMeanwhile(checked: seq<Step>) returns (steps: seq<Step>)
    ensures var s, s' := Run(START, checked), Run(START, steps);
            && s'.rooms == Remove(s.rooms, 7, 1) && s'.revoked == s.revoked + [(7, 1)]
            && s'.effects == s.effects && s'.tickets == s.tickets && s'.passed == s.passed
  {
    var marked := RunAppend(checked, RevokeMark(7, 1));
    steps := RunAppend(marked, RevokeRemove(7, 1));
  }

  lemma LateJoin(s: State, c: int)
    requires s.passed == map[c := Passed(0, 0)] && |s.tickets| == 1 && s.tickets[0].isJoin
    ensures var s', t := Apply(s, Act(c)), s.tickets[0];
            && InIndex(s'.rooms.users, t.room, t.user) && s'.revoked == s.revoked && s'.tickets == s.tickets
            && |s'.effects| == |s.effects| + 1 && s'.passed == map[]
  {
    assert s.passed - {c} == map[];
  }

  /** A join that has passed its checks and not yet taken effect. */
  lemma JoinChecked() returns (steps: seq<Step>)
    ensures var s := Run(START, steps);
            && s.rooms == EMPTY && s.revoked == [] && s.effects == [] && s.generation == map[]
            && |s.tickets| == 1 && s.tickets[0].isJoin && s.tickets[0].room == 7 && s.tickets[0].user == 1 && s.tickets[0].at == 0
            && s.passed == map[5 := Passed(0, 0)]
  {
    var asked := JoinAsked();
    var answered := RunAppend(asked, Answer(0, true));
    var s := Run(START, answered);
    assert s.tickets == [Ticket(true, 7, 1, 5, 0, 0, 1, 1, Some(true))];
    steps := RunAppend(answered, Check(0, 5));
  }

  lemma JoinAsked() returns (steps: seq<Step>)
    ensures Run(START, steps) ==
            START.(owner := map[5 := 1], joinGeneration := map[(5, 7) := 1], ops := [(5, 7)],
                   tickets := [Ticket(true, 7, 1, 5, 0, 0, 1, 1, None)])
  {
    assert Run(START, []) == START;
    var connected := RunAppend([], Connect(5, 1));
    steps := RunAppend(connected, JoinRequest(5, 7));
  }

  lemma RunAppend(steps: seq<Step>, step: Step) returns (more: seq<Step>)
    ensures Run(START, more) == Apply(Run(START, steps), step)
  {
    more := steps + [step];
    RunSnoc(START, steps, step);
  }

  lemma {:induction false} RunSnoc(s: State, steps: seq<Step>, step: Step)
    ensures Run(s, steps + [step]) == Apply(Run(s, steps), step)
    decreases |steps|
  {
    if steps == [] {
      assert ([] + [step])[1..] == [];
    } else {
      assert (steps + [step])[1..] == steps[1..] + [step];
      RunSnoc(Apply(s, steps[0]), steps[1..], step);
    }
  }
}
