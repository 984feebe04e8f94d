/** Join and leave notices of a room. An operation decides on its notice inside the lock-held section of the
    room tables; after it, the notice becomes a task of the RPC pool and is issued when a pool thread gets to
    it. So notices can be issued in another order than they were decided in. */
module RoomNotices {
  import opened RoomTables

  type Task = nat

  /** `due` holds the notices that have been decided on and not yet issued. */
  datatype State = State(rooms: Rooms, due: map<Task, Note>, issued: seq<Note>)

  const START := State(EMPTY, map[], [])

  /** The lock-held section of an operation, whose notice becomes a task, and the issuing of a notice. */
  datatype Step = Decide(task: Task, op: Op) | Issue(task: Task)

  predicate Enabled(s: State, step: Step) {
    match step
    case Decide(t, _) => t !in s.due
    case Issue(t) => t in s.due
  }

  function Next(s: State, step: Step): State {
    if !Enabled(s, step) then s
    else
      match step
      case Decide(t, op) =>
        var rooms := RoomTables.Apply(s.rooms, op);
        s.(rooms := rooms,
        due := if |rooms.notes| > |s.rooms.notes| then s.due[t := rooms.notes[|rooms.notes| - 1]] else s.due)
      case Issue(t) => s.(due := s.due - {t}, issued := s.issued + [s.due[t]])
  }

  function After(s: State, steps: seq<Step>): State {
    if steps == [] then s else Next(After(s, steps[..|steps| - 1]), steps[|steps| - 1])
  }

  // ----- what is said about one room and user

  /** The notices about a room and user, true for a join. */
  function Kinds(notes: seq<Note>, r: int, u: int): seq<bool> {
    if notes == [] then []
    else
      var before, last := Kinds(notes[..|notes| - 1], r, u), notes[|notes| - 1];
      if About(last, r, u) then before + [last.Joined?] else before
  }

  /** Join, leave, join, leave, and so on. */
  predicate Alternating(kinds: seq<bool>) {
    forall i | 0 <= i < |kinds| :: kinds[i] == (i % 2 == 0)
  }

  lemma KindsAppend(notes: seq<Note>, note: Note, r: int, u: int)
    ensures Kinds(notes + [note], r, u) ==
            if About(note, r, u) then Kinds(notes, r, u) + [note.Joined?] else Kinds(notes, r, u)
  {
    assert (notes + [note])[..|notes|] == notes;
  }

  lemma AlternatingAppend(kinds: seq<bool>, kind: bool)
    ensures Alternating(kinds + [kind]) <==> Alternating(kinds) && kind == (|kinds| % 2 == 0)
  {
    if Alternating(kinds + [kind]) {
      assert forall i | 0 <= i < |kinds| :: kinds[i] == (kinds + [kind])[i];
      assert (kinds + [kind])[|kinds|] == kind;
    }
  }

  predicate Forwards(kinds: seq<bool>, present: bool) {
    Alternating(kinds) && present == (|kinds| % 2 == 1)
  }

  lemma ForwardsAppend(kinds: seq<bool>, kind: bool, present: bool)
    ensures Forwards(kinds + [kind], present) <==> kind == present && Forwards(kinds, !present)
  {
    AlternatingAppend(kinds, kind);
    assert (|kinds| + 1) % 2 == 1 <==> |kinds| % 2 == 0;
  }

  /** The two readings of alternation, backwards and forwards, are the same. */
  lemma {:induction false} AlternatesForwards(notes: seq<Note>, r: int, u: int, present: bool)
    ensures Alternates(notes, r, u, present) <==> Forwards(Kinds(notes, r, u), present)
    decreases |notes|
  {
    if notes != [] {
      var before, last := notes[..|notes| - 1], notes[|notes| - 1];
      if About(last, r, u) {
        AlternatesForwards(before, r, u, !present);
        ForwardsAppend(Kinds(before, r, u), last.Joined?, present);
      } else {
        AlternatesForwards(before, r, u, present);
      }
    }
  }

  // ----- decided, due and issued

  function Decided(s: State, r: int, u: int): seq<bool> {
    Kinds(s.rooms.notes, r, u)
  }

  function Issued(s: State, r: int, u: int): seq<bool> {
    Kinds(s.issued, r, u)
  }

  /** The tasks that are to issue this notice. */
  function Holders(s: State, note: Note): set<Task> {
    set t | t in s.due && s.due[t] == note
  }

  function Count(kinds: seq<bool>, kind: bool): nat {
    if kinds == [] then 0 else Count(kinds[..|kinds| - 1], kind) + if kinds[|kinds| - 1] == kind then 1 else 0
  }

  function NoteOf(kind: bool, r: int, u: int): Note {
    if kind then Joined(r, u) else Left(r, u)
  }

  lemma CountAppend(kinds: seq<bool>, x: bool, kind: bool)
    ensures Count(kinds + [x], kind) == Count(kinds, kind) + if x == kind then 1 else 0
  {
    assert (kinds + [x])[..|kinds|] == kinds;
  }

  lemma {:induction false} CountBoth(kinds: seq<bool>)
    ensures Count(kinds, true) + Count(kinds, false) == |kinds|
  {
    if kinds != [] {
      CountBoth(kinds[..|kinds| - 1]);
    }
  }

  lemma {:induction false} CountAlternating(kinds: seq<bool>)
    requires Alternating(kinds)
    ensures Count(kinds, true) == (|kinds| + 1) / 2 && Count(kinds, false) == |kinds| / 2
  {
    if kinds != [] {
      CountAlternating(kinds[..|kinds| - 1]);
    }
  }

  /** Nothing decided is lost or issued twice. */
  predicate Conserved(s: State, r: int, u: int, kind: bool) {
    Count(Decided(s, r, u), kind) == Count(Issued(s, r, u), kind) + |Holders(s, NoteOf(kind, r, u))|
  }

  ghost predicate Inv(s: State) {
    RoomTables.Inv(s.rooms) && forall r, u, kind :: Conserved(s, r, u, kind)
  }

  /** An operation appends at most one notice. */
  lemma OneNote(s: Rooms, op: Op)
    ensures var s' := RoomTables.Apply(s, op);
            s'.notes == s.notes || (s'.notes != [] && s'.notes[..|s'.notes| - 1] == s.notes)
  {
  }

  lemma HoldersMore(s: State, s': State, t: Task, note: Note, other: Note)
    requires t !in s.due && s'.due == s.due[t := note]
    ensures |Holders(s', other)| == |Holders(s, other)| + if other == note then 1 else 0
  {
    assert Holders(s', other) == if other == note then Holders(s, other) + {t} else Holders(s, other);
  }

  lemma HoldersFewer(s: State, s': State, t: Task, other: Note)
    requires t in s.due && s'.due == s.due - {t}
    ensures |Holders(s, other)| == |Holders(s', other)| + if other == s.due[t] then 1 else 0
  {
    assert Holders(s, other) == if other == s.due[t] then Holders(s', other) + {t} else Holders(s', other);
  }

  lemma NoteIs(note: Note, kind: bool, r: int, u: int)
    ensures note == NoteOf(kind, r, u) <==> About(note, r, u) && note.Joined? == kind
  {
  }

  lemma DecideConserves(s: State, t: Task, op: Op, r: int, u: int, kind: bool)
    requires Conserved(s, r, u, kind) && t !in s.due
    ensures Conserved(Next(s, Decide(t, op)), r, u, kind)
  {
    var s' := Next(s, Decide(t, op));
    OneNote(s.rooms, op);
    if s'.rooms.notes != s.rooms.notes {
      var note := s'.rooms.notes[|s'.rooms.notes| - 1];
      NoteIs(note, kind, r, u);
      if About(note, r, u) {
        CountAppend(Decided(s, r, u), note.Joined?, kind);
      }
      HoldersMore(s, s', t, note, NoteOf(kind, r, u));
    } else {
      assert Holders(s', NoteOf(kind, r, u)) == Holders(s, NoteOf(kind, r, u));
    }
  }

  lemma IssueConserves(s: State, t: Task, r: int, u: int, kind: bool)
    requires Conserved(s, r, u, kind) && t in s.due
    ensures Conserved(Next(s, Issue(t)), r, u, kind)
  {
    var s' := Next(s, Issue(t));
    KindsAppend(s.issued, s.due[t], r, u);
    NoteIs(s.due[t], kind, r, u);
    if About(s.due[t], r, u) {
      CountAppend(Issued(s, r, u), s.due[t].Joined?, kind);
    }
    HoldersFewer(s, s', t, NoteOf(kind, r, u));
  }

  lemma StepInv(s: State, step: Step)
    requires Inv(s)
    ensures Inv(Next(s, step))
  {
    if Enabled(s, step) {
      forall r, u, kind
        ensures Conserved(Next(s, step), r, u, kind)
      {
        assert Conserved(s, r, u, kind);
        match step
        case Decide(t, op) => DecideConserves(s, t, op, r, u, kind);
        case Issue(t) => IssueConserves(s, t, r, u, kind);
      }
      if step.Decide? {
        OpInv(s.rooms, RoomTables.Apply(s.rooms, step.op), step.op.room, step.op.user,
              if step.op.RemoveOp? then 0 else step.op.conn);
      }
    }
  }

  lemma {:induction false} RunInv(steps: seq<Step>)
    ensures Inv(After(START, steps))
  {
    if steps == [] {
      forall r, u, kind
        ensures Conserved(START, r, u, kind)
      {
        assert Holders(START, NoteOf(kind, r, u)) == {};
      }
    } else {
      RunInv(steps[..|steps| - 1]);
      StepInv(After(START, steps[..|steps| - 1]), steps[|steps| - 1]);
    }
  }

  /** Everything about one room and user in a state of a run, as lengths and counts. */
  lemma Facts(s: State, r: int, u: int)
    requires Inv(s)
    ensures Alternating(Decided(s, r, u)) && InIndex(s.rooms.users, r, u) == (|Decided(s, r, u)| % 2 == 1)
    ensures |Decided(s, r, u)| == |Issued(s, r, u)| + |Holders(s, Joined(r, u))| + |Holders(s, Left(r, u))|
    ensures Count(Issued(s, r, u), true) + |Holders(s, Joined(r, u))| == (|Decided(s, r, u)| + 1) / 2
    ensures Count(Issued(s, r, u), false) + |Holders(s, Left(r, u))| == |Decided(s, r, u)| / 2
  {
    assert Conserved(s, r, u, true) && Conserved(s, r, u, false);
    assert Alternates(s.rooms.notes, r, u, InIndex(s.rooms.users, r, u));
    AlternatesForwards(s.rooms.notes, r, u, InIndex(s.rooms.users, r, u));
    assert Forwards(Decided(s, r, u), InIndex(s.rooms.users, r, u));
    CountBoth(Decided(s, r, u));
    CountBoth(Issued(s, r, u));
    CountAlternating(Decided(s, r, u));
  }

  // ----- results

  /** The notices of one room and user are decided in strict alternation, starting with a join, and the last
      one tells the membership. */
  lemma DecidedAlternates(steps: seq<Step>, r: int, u: int)
    ensures var s := After(START, steps);
            Alternating(Decided(s, r, u)) && InIndex(s.rooms.users, r, u) == (|Decided(s, r, u)| % 2 == 1)
  {
    RunInv(steps);
    Facts(After(START, steps), r, u);
  }

  /** Whatever the order, when no notice is due, the joins issued are one more than the leaves for a member
      and as many for anyone else. */
  lemma IssuedBalance(steps: seq<Step>, r: int, u: int)
    requires var s := After(START, steps); Holders(s, Joined(r, u)) == {} && Holders(s, Left(r, u)) == {}
    ensures var s := After(START, steps);
            Count(Issued(s, r, u), true) - Count(Issued(s, r, u), false) == if InIndex(s.rooms.users, r, u) then 1 else 0
  {
    RunInv(steps);
    Facts(After(START, steps), r, u);
  }

  /** The notice issued is not of the kind of the oldest decision that has not been issued. */
  predicate Overtakes(s: State, step: Step, r: int, u: int) {
    && step.Issue? && step.task in s.due && About(s.due[step.task], r, u)
    && var n := |Issued(s, r, u)|;
    && n < |Decided(s, r, u)| && s.due[step.task].Joined? != Decided(s, r, u)[n]
  }

  predicate NeverOvertakes(steps: seq<Step>, r: int, u: int) {
    steps == [] ||
    (var n := |steps| - 1;
     NeverOvertakes(steps[..n], r, u) && !Overtakes(After(START, steps[..n]), steps[n], r, u))
  }

  lemma IssueStep(s: State, t: Task, r: int, u: int)
    requires Inv(s) && t in s.due && About(s.due[t], r, u)
    ensures |Issued(s, r, u)| < |Decided(s, r, u)|
    ensures Issued(Next(s, Issue(t)), r, u) == Issued(s, r, u) + [s.due[t].Joined?]
    ensures Alternating(Issued(Next(s, Issue(t)), r, u)) <==>
              Alternating(Issued(s, r, u)) && !Overtakes(s, Issue(t), r, u)
  {
    Facts(s, r, u);
    assert t in Holders(s, s.due[t]);
    KindsAppend(s.issued, s.due[t], r, u);
    AlternatingAppend(Issued(s, r, u), s.due[t].Joined?);
  }

  lemma OtherStep(s: State, step: Step, r: int, u: int)
    requires !(step.Issue? && step.task in s.due && About(s.due[step.task], r, u))
    ensures Issued(Next(s, step), r, u) == Issued(s, r, u)
  {
    if step.Issue? && step.task in s.due {
      KindsAppend(s.issued, s.due[step.task], r, u);
    }
  }

  /** In any run the notices of one room and user are issued in strict alternation, starting with a join, if
      and only if none overtakes a decision of the other kind. */
  lemma {:induction false} IssuedAlternatesExactlyWhen(steps: seq<Step>, r: int, u: int)
    ensures Alternating(Issued(After(START, steps), r, u)) <==> NeverOvertakes(steps, r, u)
  {
    if steps != [] {
      var n := |steps| - 1;
      var s := After(START, steps[..n]);
      IssuedAlternatesExactlyWhen(steps[..n], r, u);
      RunInv(steps[..n]);
      if steps[n].Issue? && steps[n].task in s.due && About(s.due[steps[n].task], r, u) {
        IssueStep(s, steps[n].task, r, u);
      } else {
        OtherStep(s, steps[n], r, u);
      }
    }
  }

  /** At most one notice about this room and user is due. */
  predicate OneDue(s: State, r: int, u: int) {
    |Holders(s, Joined(r, u))| + |Holders(s, Left(r, u))| <= 1
  }

  /** Whichever notice is issued next, those of this room and user alternate. */
  ghost predicate SafeNext(s: State, r: int, u: int) {
    forall t :: Alternating(Issued(Next(s, Issue(t)), r, u))
  }

  /** While the issued notices still alternate, they go on alternating whichever is issued next, if and only if
      at most one notice about this room and user is due. */
  lemma NextIssueSafeExactlyWhen(steps: seq<Step>, r: int, u: int)
    requires Alternating(Issued(After(START, steps), r, u))
    ensures SafeNext(After(START, steps), r, u) <==> OneDue(After(START, steps), r, u)
  {
    var s := After(START, steps);
    RunInv(steps);
    Facts(s, r, u);
    CountAlternating(Issued(s, r, u));
    CountBoth(Issued(s, r, u));
    if OneDue(s, r, u) {
      forall t
        ensures Alternating(Issued(Next(s, Issue(t)), r, u))
      {
        OneDueIsSafe(s, t, r, u);
      }
    } else {
      var wrong := NoteOf(|Issued(s, r, u)| % 2 == 1, r, u);
      assert |Holders(s, wrong)| > 0;
      var t :| t in Holders(s, wrong);
      IssueStep(s, t, r, u);
      AlternatingAppend(Issued(s, r, u), wrong.Joined?);
    }
  }

  lemma OneDueIsSafe(s: State, t: Task, r: int, u: int)
    requires Inv(s) && OneDue(s, r, u) && Alternating(Issued(s, r, u))
    ensures Alternating(Issued(Next(s, Issue(t)), r, u))
  {
    if t in s.due && About(s.due[t], r, u) {
      Facts(s, r, u);
      CountAlternating(Issued(s, r, u));
      IssueStep(s, t, r, u);
      assert t in Holders(s, s.due[t]);
      AlternatingAppend(Issued(s, r, u), s.due[t].Joined?);
    } else {
      OtherStep(s, Issue(t), r, u);
    }
  }

  /** No operation decides on this room and user between the lock-held section and the notice of another. */
  predicate NeverOverlaps(steps: seq<Step>, r: int, u: int) {
    steps == [] || (NeverOverlaps(steps[..|steps| - 1], r, u) && OneDue(After(START, steps), r, u))
  }

  /** Without such overlaps the issued notices alternate, and when none is due the last one tells the
      membership. */
  lemma {:induction false} WithoutOverlap(steps: seq<Step>, r: int, u: int)
    requires NeverOverlaps(steps, r, u)
    ensures var s := After(START, steps);
            && Alternating(Issued(s, r, u))
            && (Holders(s, Joined(r, u)) == {} && Holders(s, Left(r, u)) == {} ==>
                  InIndex(s.rooms.users, r, u) == (|Issued(s, r, u)| % 2 == 1))
  {
    RunInv(steps);
    Facts(After(START, steps), r, u);
    if steps != [] {
      var n := |steps| - 1;
      var s := After(START, steps[..n]);
      WithoutOverlap(steps[..n], r, u);
      RunInv(steps[..n]);
      if steps[n].Issue? {
        OneDueBefore(steps[..n], r, u);
        OneDueIsSafe(s, steps[n].task, r, u);
      } else {
        OtherStep(s, steps[n], r, u);
      }
    }
  }

  lemma OneDueBefore(steps: seq<Step>, r: int, u: int)
    requires NeverOverlaps(steps, r, u)
    ensures OneDue(After(START, steps), r, u)
  {
    if steps == [] {
      assert Holders(START, Joined(r, u)) == {} && Holders(START, Left(r, u)) == {};
    }
  }

  lemma {:induction false} OverlapPrefix(steps: seq<Step>, n: nat, r: int, u: int)
    requires n <= |steps| && NeverOverlaps(steps, r, u)
    ensures NeverOverlaps(steps[..n], r, u)
    decreases |steps|
  {
    if n < |steps| {
      OverlapPrefix(steps[..|steps| - 1], n, r, u);
      assert steps[..|steps| - 1][..n] == steps[..n];
    } else {
      assert steps[..n] == steps;
    }
  }

  lemma SafeAlternates(s: State, r: int, u: int)
    requires Inv(s) && SafeNext(s, r, u)
    ensures Alternating(Issued(s, r, u))
  {
    var t: Task := 0;
    if t in s.due && About(s.due[t], r, u) {
      IssueStep(s, t, r, u);
    } else {
      OtherStep(s, Issue(t), r, u);
    }
  }

  /** At no point of the run can what is due break the alternation, in whatever order it is issued, if and only
      if no operation decides on this room and user between the lock-held section and the notice of another. */
  lemma {:induction false} SafeExactlyWithoutOverlap(steps: seq<Step>, r: int, u: int)
    ensures NeverOverlaps(steps, r, u) <==>
              forall n | 0 <= n <= |steps| :: SafeNext(After(START, steps[..n]), r, u)
  {
    if NeverOverlaps(steps, r, u) {
      forall n | 0 <= n <= |steps|
        ensures SafeNext(After(START, steps[..n]), r, u)
      {
        OverlapPrefix(steps, n, r, u);
        WithoutOverlap(steps[..n], r, u);
        OneDueBefore(steps[..n], r, u);
        NextIssueSafeExactlyWhen(steps[..n], r, u);
      }
    }
    if (forall n | 0 <= n <= |steps| :: SafeNext(After(START, steps[..n]), r, u)) && steps != [] {
      var before := steps[..|steps| - 1];
      forall n | 0 <= n <= |before|
        ensures SafeNext(After(START, before[..n]), r, u)
      {
        assert before[..n] == steps[..n];
      }
      SafeExactlyWithoutOverlap(before, r, u);
      assert steps[..|steps|] == steps;
      RunInv(steps);
      SafeAlternates(After(START, steps), r, u);
      NextIssueSafeExactlyWhen(steps, r, u);
    }
  }

  /** A removal decides on its leave notice, a new join is decided and issued, and only then the leave notice
      goes out: two joins in a row, and the last notice says that a member has left. */
  lemma LeaveAfterRejoin()
    ensures exists steps ::
              var s := After(START, steps);
              s.issued == [Joined(7, 1), Joined(7, 1), Left(7, 1)] && s.due == map[] && InIndex(s.rooms.users, 7, 1)
  {
    assert After(START, []) == START;
    var joined := JoinIssued([], 0, 7, 1, 5);
    var removed := RemovalDue(joined, 1, 7, 1);
    var rejoined := JoinIssued(removed, 0, 7, 1, 5);
    var steps := rejoined + [Issue(1)];
    AfterAppend(rejoined, Issue(1));
    assert map[1 := Left(7, 1)] - {1} == map[];
    assert After(START, steps).due == map[];
  }

  lemma AfterAppend(steps: seq<Step>, step: Step)
    ensures After(START, steps + [step]) == Next(After(START, steps), step)
  {
    assert (steps + [step])[..|steps|] == steps;
  }

  lemma JoinIssued(steps: seq<Step>, t: Task, r: int, u: int, c: int) returns (more: seq<Step>)
    requires var s := After(START, steps); t !in s.due && !InIndex(s.rooms.users, r, u)
    ensures var s, s' := After(START, steps), After(START, more);
            s'.due == s.due && s'.issued == s.issued + [Joined(r, u)] && InIndex(s'.rooms.users, r, u)
  {
    var s := After(START, steps);
    AfterAppend(steps, Decide(t, AddOp(r, u, c)));
    AfterAppend(steps + [Decide(t, AddOp(r, u, c))], Issue(t));
    more := steps + [Decide(t, AddOp(r, u, c))] + [Issue(t)];
    FirstJoin(s, t, r, u, c);
    assert s.due[t := Joined(r, u)] - {t} == s.due;
  }

  lemma RemovalDue(steps: seq<Step>, t: Task, r: int, u: int) returns (more: seq<Step>)
    requires var s := After(START, steps); t !in s.due && InIndex(s.rooms.users, r, u)
    ensures var s, s' := After(START, steps), After(START, more);
            s'.due == s.due[t := Left(r, u)] && s'.issued == s.issued && !InIndex(s'.rooms.users, r, u)
  {
    AfterAppend(steps, Decide(t, RemoveOp(r, u)));
    more := steps + [Decide(t, RemoveOp(r, u))];
  }

  lemma FirstJoin(s: State, t: Task, r: int, u: int, c: int)
    requires t !in s.due && !InIndex(s.rooms.users, r, u)
    ensures var s' := Next(s, Decide(t, AddOp(r, u, c)));
            s'.due == s.due[t := Joined(r, u)] && s'.issued == s.issued && InIndex(s'.rooms.users, r, u)
  {
  }
}
