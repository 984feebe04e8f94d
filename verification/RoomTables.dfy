/** The room tables of one Comet node: connections per room and user, and the derived index of users per
    room. Every operation is one lock-held section; `notes` records the notices in the order in which they are
    decided on. They are issued after the section; see RoomNotices. */
module RoomTables {

  datatype Note = Joined(room: int, user: int) | Left(room: int, user: int)

  type Index = map<int, set<int>>
  type Table = map<int, map<int, set<int>>>

  datatype Rooms = Rooms(users: Index, conns: Table, notes: seq<Note>)

  const EMPTY := Rooms(map[], map[], [])

  predicate InIndex(users: Index, r: int, u: int) {
    r in users && u in users[r]
  }

  function Conns(conns: Table, r: int, u: int): set<int> {
    if r in conns && u in conns[r] then conns[r][u] else {}
  }

  function Row(conns: Table, r: int): map<int, set<int>> {
    if r in conns then conns[r] else map[]
  }

  function Members(users: Index, r: int): set<int> {
    if r in users then users[r] else {}
  }

  /** Stores a row, dropping it when it has become empty. */
  function PutRow(conns: Table, r: int, row: map<int, set<int>>): Table {
    if row == map[] then conns - {r} else conns[r := row]
  }

  function PutMembers(users: Index, r: int, members: set<int>): Index {
    if members == {} then users - {r} else users[r := members]
  }

  function Add(s: Rooms, r: int, u: int, c: int): Rooms {
    Rooms(s.users[r := Members(s.users, r) + {u}],
          s.conns[r := Row(s.conns, r)[u := Conns(s.conns, r, u) + {c}]],
          if InIndex(s.users, r, u) then s.notes else s.notes + [Joined(r, u)])
  }

  function Leave(s: Rooms, r: int, u: int, c: int): Rooms {
    if r !in s.conns || u !in s.conns[r] then s
    else
      var rest := s.conns[r][u] - {c};
      if rest != {} then s.(conns := s.conns[r := s.conns[r][u := rest]])
      else
        Rooms(if r in s.users then PutMembers(s.users, r, s.users[r] - {u}) else s.users,
              PutRow(s.conns, r, s.conns[r] - {u}),
              s.notes + [Left(r, u)])
  }

  function Remove(s: Rooms, r: int, u: int): Rooms {
    Rooms(if r in s.users then PutMembers(s.users, r, s.users[r] - {u}) else s.users,
          if r in s.conns then PutRow(s.conns, r, s.conns[r] - {u}) else s.conns,
          if InIndex(s.users, r, u) then s.notes + [Left(r, u)] else s.notes)
  }

  // ----- invariant

  /** The index says exactly who has a connection in a room, and no table keeps an empty entry. */
  ghost predicate IndexExact(s: Rooms) {
    && (forall r, u :: InIndex(s.users, r, u) <==> Conns(s.conns, r, u) != {})
    && (forall r | r in s.conns :: s.conns[r] != map[] && forall u | u in s.conns[r] :: s.conns[r][u] != {})
    && (forall r | r in s.users :: s.users[r] != {})
  }

  /** Read backwards, the notices decided on for one room and user alternate, the last one says whether the
      user is present, and the first one is a join. */
  predicate Alternates(notes: seq<Note>, r: int, u: int, present: bool)
    decreases |notes|
  {
    if notes == [] then !present
    else
      var last, before := notes[|notes| - 1], notes[..|notes| - 1];
      if last.room == r && last.user == u then last.Joined? == present && Alternates(before, r, u, !present)
      else Alternates(before, r, u, present)
  }

  ghost predicate Inv(s: Rooms) {
    && IndexExact(s)
    && forall r, u :: Alternates(s.notes, r, u, InIndex(s.users, r, u))
  }

  lemma NoteAppend(notes: seq<Note>, note: Note, r: int, u: int, present: bool)
    requires Alternates(notes, r, u, if note.room == r && note.user == u then !present else present)
    requires note.room == r && note.user == u ==> note.Joined? == present
    ensures Alternates(notes + [note], r, u, present)
  {
    assert (notes + [note])[..|notes|] == notes;
  }

  lemma PutRowEffect(conns: Table, r: int, row: map<int, set<int>>, q: int, v: int)
    ensures Conns(PutRow(conns, r, row), q, v) == if q == r then (if v in row then row[v] else {}) else Conns(conns, q, v)
  {
  }

  /** What an operation on one room and user does to a given room and user. */
  lemma Effects(s: Rooms, r: int, u: int, c: int, q: int, v: int)
    requires IndexExact(s)
    ensures Conns(Add(s, r, u, c).conns, q, v) == if q == r && v == u then Conns(s.conns, r, u) + {c} else Conns(s.conns, q, v)
    ensures Conns(Leave(s, r, u, c).conns, q, v) == if q == r && v == u then Conns(s.conns, r, u) - {c} else Conns(s.conns, q, v)
    ensures Conns(Remove(s, r, u).conns, q, v) == if q == r && v == u then {} else Conns(s.conns, q, v)
    ensures InIndex(Add(s, r, u, c).users, q, v) <==> InIndex(s.users, q, v) || (q == r && v == u)
    ensures InIndex(Remove(s, r, u).users, q, v) <==> InIndex(s.users, q, v) && !(q == r && v == u)
    ensures InIndex(Leave(s, r, u, c).users, q, v) <==>
              InIndex(s.users, q, v) && !(q == r && v == u && Conns(s.conns, r, u) - {c} == {})
  {
    assert InIndex(s.users, r, u) <==> Conns(s.conns, r, u) != {};
    if r in s.conns {
      PutRowEffect(s.conns, r, s.conns[r] - {u}, q, v);
    }
  }

  lemma IndexAt(s: Rooms, s': Rooms, r: int, u: int, c: int, q: int, v: int)
    requires IndexExact(s) && (s' == Add(s, r, u, c) || s' == Leave(s, r, u, c) || s' == Remove(s, r, u))
    ensures InIndex(s'.users, q, v) <==> Conns(s'.conns, q, v) != {}
  {
    Effects(s, r, u, c, q, v);
    assert InIndex(s.users, q, v) <==> Conns(s.conns, q, v) != {};
  }

  lemma IndexStep(s: Rooms, s': Rooms, r: int, u: int, c: int)
    requires IndexExact(s) && (s' == Add(s, r, u, c) || s' == Leave(s, r, u, c) || s' == Remove(s, r, u))
    ensures IndexExact(s')
  {
    forall q, v ensures InIndex(s'.users, q, v) <==> Conns(s'.conns, q, v) != {} {
      IndexAt(s, s', r, u, c, q, v);
    }
    forall q | q in s'.conns ensures s'.conns[q] != map[] {
      if q == r && s' != Remove(s, r, u) && u in s'.conns[q] {
        assert u in s'.conns[q].Keys;
      }
    }
  }

  /** Every operation keeps the index exact and the decided notices alternating. */
  lemma OpInv(s: Rooms, s': Rooms, r: int, u: int, c: int)
    requires Inv(s) && (s' == Add(s, r, u, c) || s' == Leave(s, r, u, c) || s' == Remove(s, r, u))
    ensures Inv(s')
  {
    IndexStep(s, s', r, u, c);
    assert InIndex(s.users, r, u) <==> Conns(s.conns, r, u) != {};
    forall q, v ensures Alternates(s'.notes, q, v, InIndex(s'.users, q, v)) {
      Effects(s, r, u, c, q, v);
      assert Alternates(s.notes, q, v, InIndex(s.users, q, v));
      if s'.notes != s.notes {
        NoteAppend(s.notes, s'.notes[|s.notes|], q, v, InIndex(s'.users, q, v));
      }
    }
  }

  datatype Op = AddOp(room: int, user: int, conn: int) | LeaveOp(room: int, user: int, conn: int) | RemoveOp(room: int, user: int)

  function Apply(s: Rooms, op: Op): Rooms {
    match op
    case AddOp(r, u, c) => Add(s, r, u, c)
    case LeaveOp(r, u, c) => Leave(s, r, u, c)
    case RemoveOp(r, u) => Remove(s, r, u)
  }

  function Run(s: Rooms, ops: seq<Op>): Rooms
    decreases |ops|
  {
    if ops == [] then s else Run(Apply(s, ops[0]), ops[1..])
  }

  /** After any run of joins, leaves and removals: a user is in the index of a room exactly when it has a
      connection there, and the notices decided on alternate, starting with a join. */
  lemma {:induction false} RunInv(s: Rooms, ops: seq<Op>)
    requires Inv(s)
    ensures Inv(Run(s, ops))
    decreases |ops|
  {
    if ops != [] {
      OpInv(s, Apply(s, ops[0]), ops[0].room, ops[0].user, if ops[0].RemoveOp? then 0 else ops[0].conn);
      RunInv(Apply(s, ops[0]), ops[1..]);
    }
  }

  predicate About(note: Note, r: int, u: int) {
    note.room == r && note.user == u
  }

  /** What alternation means, read forwards. */
  lemma {:induction false} AlternationReadForwards(notes: seq<Note>, r: int, u: int, present: bool, i: nat, j: nat)
    requires Alternates(notes, r, u, present) && j < |notes| && About(notes[j], r, u)
    ensures (forall k | 0 <= k < j :: !About(notes[k], r, u)) ==> notes[j].Joined?
    ensures i < j && About(notes[i], r, u) && (forall k | i < k < j :: !About(notes[k], r, u)) ==>
              notes[i].Joined? != notes[j].Joined?
    ensures (forall k | j < k < |notes| :: !About(notes[k], r, u)) ==> notes[j].Joined? == present
    decreases |notes|
  {
    var n := |notes| - 1;
    var before := notes[..n];
    if About(notes[n], r, u) {
      if j == n {
        LastAbout(before, r, u, !present);
      } else {
        AlternationReadForwards(before, r, u, !present, i, j);
      }
    } else {
      AlternationReadForwards(before, r, u, present, i, j);
    }
  }

  lemma {:induction false} LastAbout(notes: seq<Note>, r: int, u: int, present: bool)
    requires Alternates(notes, r, u, present)
    ensures (forall k | 0 <= k < |notes| :: !About(notes[k], r, u)) ==> !present
    ensures forall i | 0 <= i < |notes| && About(notes[i], r, u) && (forall k | i < k < |notes| :: !About(notes[k], r, u)) ::
              notes[i].Joined? == present
    decreases |notes|
  {
    if notes != [] {
      var n := |notes| - 1;
      if !About(notes[n], r, u) {
        LastAbout(notes[..n], r, u, present);
        forall i | 0 <= i < |notes| && About(notes[i], r, u) && (forall k | i < k < |notes| :: !About(notes[k], r, u))
          ensures notes[i].Joined? == present
        {
          assert notes[..n][i] == notes[i];
        }
      }
    }
  }

  class RoomTable {
    var users: Index
    var conns: Table
    ghost var notes: seq<Note>

    constructor ()
      ensures View() == EMPTY
    {
      users, conns, notes := map[], map[], [];
    }

    ghost function View(): Rooms
      reads this
    {
      Rooms(users, conns, notes)
    }

    method AddUserToRoom(r: int, u: int, c: int) returns (first: bool)
      modifies this
      ensures View() == Add(old(View()), r, u, c)
      ensures first <==> !InIndex(old(users), r, u)
    {
      var row := if r in conns then conns[r] else map[];
      var set' := (if u in row then row[u] else {}) + {c};
      conns := conns[r := row[u := set']];
      var members := if r in users then users[r] else {};
      first := u !in members;
      users := users[r := members + {u}];
      if first {
        notes := notes + [Joined(r, u)];
      }
    }

    method LeaveRoomConnection(r: int, u: int, c: int) returns (last: bool)
      modifies this
      ensures View() == Leave(old(View()), r, u, c)
      ensures last <==> r in old(conns) && u in old(conns)[r] && old(conns)[r][u] <= {c}
    {
      last := false;
      if r !in conns { return; }
      if u !in conns[r] { return; }
      var rest := conns[r][u] - {c};
      var row := conns[r][u := rest];
      if rest == {} {
        row := conns[r] - {u};
        last := true;
      }
      assert rest != {} ==> u in row.Keys;
      if row == map[] {
        conns := conns - {r};
      } else {
        conns := conns[r := row];
      }
      if last {
        if r in users {
          DropMember(r, u);
        }
        notes := notes + [Left(r, u)];
      }
    }

    method DropMember(r: int, u: int)
      requires r in users
      modifies `users
      ensures users == PutMembers(old(users), r, old(users)[r] - {u})
    {
      var members := users[r] - {u};
      if members == {} {
        users := users - {r};
      } else {
        users := users[r := members];
      }
    }

    method RemoveUserFromRoom(r: int, u: int) returns (left: bool)
      modifies this
      ensures View() == Remove(old(View()), r, u)
      ensures left <==> InIndex(old(users), r, u)
    {
      left := false;
      if r in users {
        left := u in users[r];
        DropMember(r, u);
      }
      if r in conns {
        var row := conns[r] - {u};
        if row == map[] {
          conns := conns - {r};
        } else {
          conns := conns[r := row];
        }
      }
      if left {
        notes := notes + [Left(r, u)];
      }
    }
  }
}
