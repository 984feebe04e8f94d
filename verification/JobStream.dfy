/** The Job side of one push stream: a bounded queue, a table of unanswered requests, and one write-once
    completion per blocked caller. Callers, writer, reader and reconnects interleave freely. */
module JobStream {
  import opened Basics
  import opened PushReply

  /** PromiseState: done flips once; ok and response belong to that flip. */
  datatype Cell = Cell(done: bool, ok: bool, response: Option<Reply>)

  const FRESH := Cell(false, false, None)

  function Settle(cell: Cell, r: Reply): Cell {
    if cell.done then cell else Cell(true, r.code == 0, Some(r))
  }

  function Fail(cell: Cell): Cell {
    if cell.done then cell else cell.(done := true, ok := false)
  }

  /** A request together with the completion its caller is blocked on. */
  datatype Entry = Entry(id: string, cell: nat)

  /** The writer thread: holding a request taken from the queue, between registering it and the result
      of Write, after a failed Write, and after it withdrew the registration. */
  datatype Writer = Idle | Hand(entry: Entry) | Writing(entry: Entry) | WriteFailed(entry: Entry) | Withdrawn(entry: Entry)

  /** The reader thread: blocked in Read, or holding the entry it matched. */
  datatype Reader = Reading | Matched(entry: Entry, reply: Reply)

  /** A blocked SendToStream call: waiting, woken by its deadline, past the withdrawal, returned. */
  datatype Caller = Waiting | Expired | Withdrew | Returned(ok: bool)

  /** `ids` records the request id of every call; `refused` are the calls that never got into the queue and
      `expired` those whose deadline passed before they were woken;
      `draining` are completions that a disconnect took from the table and has yet to fail; `sent` are the ids
      that may have reached Comet. */
  datatype Job = Job(queueMax: int, queue: seq<Entry>, pending: map<string, Entry>, cells: seq<Cell>, ids: seq<string>,
                     callers: seq<Caller>, refused: set<nat>, expired: set<nat>, writer: Writer, reader: Reader, draining: set<nat>,
                     sent: set<string>)

  function Start(queueMax: int): Job {
    Job(queueMax, [], map[], [], [], [], {}, {}, Idle, Reading, {}, {})
  }

  datatype Step =
    | Call(id: string)
    | Refuse(id: string)
    | Deadline(call: nat)
    | WithdrawCall(call: nat)
    | MarkCall(call: nat)
    | Wake(call: nat)
    | TakeFromQueue
    | Register
    | Write(accepted: bool, reached: bool)
    | WithdrawWrite
    | Recheck
    | GiveUp
    | Read(reply: Reply)
    | Deliver
    | Disconnect
    | FailOne(cell: nat)

  predicate Enabled(j: Job, step: Step) {
    match step
    case Call(id) => id != "" && |j.queue| < j.queueMax
    // A full queue, or no stream to this node, or push streams switched off.
    case Refuse(id) => id != ""
    case Deadline(c) => c < |j.callers| && c < |j.cells| && j.callers[c] == Waiting && !j.cells[c].done
    case WithdrawCall(c) => c < |j.callers| && c < |j.ids| && j.callers[c] == Expired
    case MarkCall(c) => c < |j.callers| && c < |j.cells| && j.callers[c] == Withdrew
    case Wake(c) => c < |j.callers| && c < |j.cells| && j.callers[c] == Waiting && j.cells[c].done
    case TakeFromQueue => j.writer.Idle? && j.queue != []
    case Register => j.writer.Hand? && j.writer.entry.cell < |j.cells|
    case Write(_, _) => j.writer.Writing?
    case WithdrawWrite => j.writer.WriteFailed?
    case Recheck => j.writer.Withdrawn? && j.writer.entry.cell < |j.cells|
    case GiveUp => (j.writer.Hand? || j.writer.Withdrawn?) && j.writer.entry.cell < |j.cells|
    case Read(_) => j.reader.Reading?
    case Deliver => j.reader.Matched? && j.reader.entry.cell < |j.cells|
    case Disconnect => true
    case FailOne(c) => c in j.draining && c < |j.cells|
  }

  /** Removes the registration of an id only if it is the one of this completion. */
  function Withdraw(pending: map<string, Entry>, id: string, cell: nat): map<string, Entry> {
    if id in pending && pending[id].cell == cell then pending - {id} else pending
  }

  function Cells(pending: map<string, Entry>): set<nat> {
    set id | id in pending :: pending[id].cell
  }

  function Apply(j: Job, step: Step): Job {
    if !Enabled(j, step) then j
    else
      match step
      case Call(id) =>
        j.(queue := j.queue + [Entry(id, |j.cells|)], cells := j.cells + [FRESH], ids := j.ids + [id],
        callers := j.callers + [Waiting])
      case Refuse(id) =>
        j.(cells := j.cells + [FRESH], ids := j.ids + [id], callers := j.callers + [Returned(false)],
        refused := j.refused + {|j.cells|})
      case Deadline(c) => j.(callers := j.callers[c := Expired], expired := j.expired + {c})
      case WithdrawCall(c) => j.(pending := Withdraw(j.pending, j.ids[c], c), callers := j.callers[c := Withdrew])
      case MarkCall(c) => j.(cells := j.cells[c := Fail(j.cells[c])], callers := j.callers[c := Returned(false)])
      case Wake(c) => j.(callers := j.callers[c := Returned(j.cells[c].ok)])
      case TakeFromQueue => j.(writer := Hand(j.queue[0]), queue := j.queue[1..])
      case Register =>
        var e := j.writer.entry;
        if j.cells[e.cell].done then j.(writer := Idle)
        else j.(pending := j.pending[e.id := e], writer := Writing(e))
      case Write(accepted, reached) =>
        var e := j.writer.entry;
        j.(writer := if accepted then Idle else WriteFailed(e), sent := if accepted || reached then j.sent + {e.id} else j.sent)
      case WithdrawWrite =>
        var e := j.writer.entry;
        j.(pending := Withdraw(j.pending, e.id, e.cell), writer := Withdrawn(e))
      case Recheck =>
        var e := j.writer.entry;
        j.(writer := if j.cells[e.cell].done then Idle else Hand(e))
      case GiveUp =>
        var c := j.writer.entry.cell;
        j.(cells := j.cells[c := Fail(j.cells[c])], writer := Idle)
      case Read(r) =>
        if r.id in j.pending then j.(reader := Matched(j.pending[r.id], r), pending := j.pending - {r.id}) else j
      case Deliver =>
        var c := j.reader.entry.cell;
        j.(cells := j.cells[c := Settle(j.cells[c], j.reader.reply)], reader := Reading)
      case Disconnect => j.(draining := j.draining + Cells(j.pending), pending := map[])
      case FailOne(c) => j.(cells := j.cells[c := Fail(j.cells[c])], draining := j.draining - {c})
  }

  // ----- write-once

  /** No step of any thread touches a completion that is done, and calls keep their identity. */
  lemma DoneStays(j: Job, step: Step, c: nat)
    requires c < |j.cells|
    ensures c < |Apply(j, step).cells|
    ensures j.cells[c].done ==> Apply(j, step).cells[c] == j.cells[c]
  {
  }

  function Run(j: Job, steps: seq<Step>): Job
    decreases |steps|
  {
    if steps == [] then j else Run(Apply(j, steps[0]), steps[1..])
  }

  /** Across every interleaving of timeouts, writer, reader and reconnects, done flips at most once and
      what it was flipped with never changes. */
  lemma {:induction false} WriteOnce(j: Job, steps: seq<Step>, c: nat)
    requires c < |j.cells| && j.cells[c].done
    ensures c < |Run(j, steps).cells| && Run(j, steps).cells[c] == j.cells[c]
    decreases |steps|
  {
    if steps != [] {
      DoneStays(j, steps[0], c);
      WriteOnce(Apply(j, steps[0]), steps[1..], c);
    }
  }

  // ----- invariant

  predicate Names(j: Job, e: Entry) {
    e.cell < |j.ids| && j.ids[e.cell] == e.id
  }

  function WriterEntry(w: Writer): Option<Entry> {
    if w.Idle? then None else Some(w.entry)
  }

  /** Every entry anywhere names the completion of a call for the same request id. */
  predicate NamesInv(j: Job) {
    && |j.ids| == |j.cells| == |j.callers|
    && (forall i | 0 <= i < |j.queue| :: Names(j, j.queue[i]))
    && (forall id | id in j.pending :: Names(j, j.pending[id]) && j.pending[id].id == id)
    && (WriterEntry(j.writer).Some? ==> Names(j, WriterEntry(j.writer).value))
    && (j.reader.Matched? ==> Names(j, j.reader.entry) && j.reader.entry.id == j.reader.reply.id)
    && (forall c | c in j.draining :: c < |j.cells|)
  }

  /** A successful completion holds a reply for its own request id without error. */
  predicate OkCell(j: Job, replies: set<Reply>, c: nat)
    requires c < |j.cells| && c < |j.ids|
  {
    j.cells[c].ok ==>
      && j.cells[c].done && j.cells[c].response.Some?
      && var r := j.cells[c].response.value;
         r.id == j.ids[c] && r.code == 0 && r in replies
  }

  /** A call that has returned was refused, or its completion is done; it returns true only for a success. */
  predicate Answered(j: Job, c: nat)
    requires c < |j.callers| && c < |j.cells| && j.callers[c].Returned?
  {
    (c in j.refused || j.cells[c].done) && (j.callers[c].ok ==> j.cells[c].ok)
  }

  predicate Inv(j: Job, replies: set<Reply>) {
    && NamesInv(j)
    && (j.reader.Matched? ==> j.reader.reply in replies)
    && (forall c: nat | c < |j.cells| :: OkCell(j, replies, c))
    && (forall c: nat | c < |j.callers| && j.callers[c].Returned? :: Answered(j, c))
  }

  lemma NamesStep(j: Job, step: Step)
    requires NamesInv(j)
    ensures NamesInv(Apply(j, step))
  {
    if Enabled(j, step) {
      match step
      case Call(id) => NamesCall(j, step);
      case Refuse(id) => NamesCall(j, step);
      case TakeFromQueue => NamesTake(j);
      case _ =>
    }
  }

  lemma NamesCall(j: Job, step: Step)
    requires NamesInv(j) && (step.Call? || step.Refuse?)
    ensures NamesInv(Apply(j, step))
  {
    var j' := Apply(j, step);
    assert forall e | Names(j, e) :: Names(j', e);
  }

  lemma NamesTake(j: Job)
    requires NamesInv(j)
    ensures NamesInv(Apply(j, TakeFromQueue))
  {
    var j' := Apply(j, TakeFromQueue);
    if Enabled(j, TakeFromQueue) {
      assert Names(j, j.queue[0]);
      assert forall i | 0 <= i < |j'.queue| :: j'.queue[i] == j.queue[i + 1];
    }
  }

  /** A reply that is read must be one that Comet has produced; replies may be lost, late or repeated. */
  predicate Allowed(replies: set<Reply>, step: Step) {
    step.Read? ==> step.reply in replies
  }

  lemma StepInv(j: Job, replies: set<Reply>, step: Step)
    requires Inv(j, replies) && Allowed(replies, step)
    ensures Inv(Apply(j, step), replies)
  {
    NamesStep(j, step);
    CellsStep(j, replies, step);
    AnsweredStep(j, replies, step);
  }

  lemma CellsStep(j: Job, replies: set<Reply>, step: Step)
    requires Inv(j, replies) && |Apply(j, step).cells| == |Apply(j, step).ids|
    ensures forall c: nat | c < |Apply(j, step).cells| :: OkCell(Apply(j, step), replies, c)
  {
    var j' := Apply(j, step);
    forall c: nat | c < |j'.cells| ensures OkCell(j', replies, c) {
      if c < |j.cells| {
        assert OkCell(j, replies, c);
      }
    }
  }

  lemma AnsweredStep(j: Job, replies: set<Reply>, step: Step)
    requires Inv(j, replies) && |Apply(j, step).cells| == |Apply(j, step).callers|
    ensures var j' := Apply(j, step);
            forall c: nat | c < |j'.callers| && j'.callers[c].Returned? :: Answered(j', c)
  {
    var j' := Apply(j, step);
    forall c: nat | c < |j'.callers| && j'.callers[c].Returned? ensures Answered(j', c) {
      if c < |j.callers| {
        assert OkCell(j, replies, c);
        DoneStays(j, step, c);
        assert j.callers[c].Returned? ==> Answered(j, c);
      }
    }
  }

  lemma MoreReplies(j: Job, replies: set<Reply>, more: set<Reply>)
    requires Inv(j, replies) && replies <= more
    ensures Inv(j, more)
  {
    forall c: nat | c < |j.cells| ensures OkCell(j, more, c) {
      assert OkCell(j, replies, c);
    }
  }

  lemma TrueIsBacked(j: Job, replies: set<Reply>, c: nat)
    requires Inv(j, replies) && c < |j.callers| && j.callers[c] == Returned(true)
    ensures exists r :: r in replies && r.id == j.ids[c] && r.code == 0 && j.cells[c].response == Some(r)
  {
    assert Answered(j, c);
    assert OkCell(j, replies, c);
  }

  /** The replies that the reader has read on the way. */
  function RepliesRead(j: Job, steps: seq<Step>): set<Reply>
    decreases |steps|
  {
    if steps == [] then {}
    else
      (if Enabled(j, steps[0]) && steps[0].Read? then {steps[0].reply} else {}) + RepliesRead(Apply(j, steps[0]), steps[1..])
  }

  lemma StepReads(j: Job, replies: set<Reply>, step: Step, more: set<Reply>)
    requires Inv(j, replies) && replies <= more && (Enabled(j, step) && step.Read? ==> step.reply in more)
    ensures Inv(Apply(j, step), more)
  {
    MoreReplies(j, replies, more);
    if Enabled(j, step) {
      StepInv(j, more, step);
    }
  }

  lemma {:induction false} RunReads(j: Job, replies: set<Reply>, steps: seq<Step>)
    requires Inv(j, replies)
    ensures Inv(Run(j, steps), replies + RepliesRead(j, steps))
    decreases |steps|
  {
    if steps == [] {
      assert replies + RepliesRead(j, steps) == replies;
    } else {
      var first := if Enabled(j, steps[0]) && steps[0].Read? then {steps[0].reply} else {};
      StepReads(j, replies, steps[0], replies + first);
      RunReads(Apply(j, steps[0]), replies + first, steps[1..]);
      assert replies + first + RepliesRead(Apply(j, steps[0]), steps[1..]) == replies + RepliesRead(j, steps);
    }
  }

  /** In every run: SendToStream has returned true only if the reader has read a reply for its own request id
      without error, and that reply is the one it returns. */
  lemma TrueMeansReply(queueMax: int, steps: seq<Step>, c: nat)
    requires c < |Run(Start(queueMax), steps).callers| && Run(Start(queueMax), steps).callers[c] == Returned(true)
    ensures var j := Run(Start(queueMax), steps);
            && c < |j.ids| && c < |j.cells|
            && exists r :: r in RepliesRead(Start(queueMax), steps) &&
                           r.id == j.ids[c] && r.code == 0 && j.cells[c].response == Some(r)
  {
    RunReads(Start(queueMax), {}, steps);
    assert {} + RepliesRead(Start(queueMax), steps) == RepliesRead(Start(queueMax), steps);
    TrueIsBacked(Run(Start(queueMax), steps), RepliesRead(Start(queueMax), steps), c);
  }

  // ----- exactly when a call returns true

  /** The completion was done by a reply without error. */
  predicate AnsweredWell(cell: Cell) {
    cell.response.Some? && cell.response.value.code == 0
  }

  /** A completion is done by a reply, which it then holds, or by a failure, and holds none. */
  predicate CellShape(cell: Cell) {
    && (cell.response.Some? ==> cell.done)
    && (cell.ok <==> AnsweredWell(cell))
  }

  /** Entries, registrations and threads have nothing to do with refused calls. */
  predicate Clear(j: Job, e: Entry) {
    e.cell !in j.refused
  }

  predicate ClearInv(j: Job) {
    && (forall i | 0 <= i < |j.queue| :: Clear(j, j.queue[i]))
    && (forall id | id in j.pending :: Clear(j, j.pending[id]))
    && (WriterEntry(j.writer).Some? ==> Clear(j, WriterEntry(j.writer).value))
    && (j.reader.Matched? ==> Clear(j, j.reader.entry))
    && (forall c | c in j.draining :: c !in j.refused)
  }

  /** What a call has come to: refused and untouched, expired and on its way to false, or waiting for its
      completion and returning what that holds. */
  predicate CallShape(j: Job, c: nat)
    requires c < |j.callers| && c < |j.cells|
  {
    && (c in j.refused ==> j.callers[c] == Returned(false) && j.cells[c].response.None?)
    && (j.callers[c].Expired? || j.callers[c].Withdrew? ==> c in j.expired)
    && (c in j.expired ==> !j.callers[c].Waiting? && j.callers[c] != Returned(true))
    && (j.callers[c].Returned? && c !in j.expired && c !in j.refused ==>
          j.cells[c].done && j.callers[c].ok == j.cells[c].ok)
  }

  predicate Shapes(j: Job) {
    && |j.cells| == |j.callers|
    && (forall c | 0 <= c < |j.cells| :: CellShape(j.cells[c]))
    && (forall c: nat | c < |j.callers| :: CallShape(j, c))
    && (forall c | c in j.refused :: c < |j.callers|)
    && (forall c | c in j.expired :: c < |j.callers|)
  }

  lemma ClearQueue(j: Job, step: Step)
    requires NamesInv(j) && ClearInv(j) && (step.Call? || step.Refuse? || step.TakeFromQueue?)
    requires forall c | c in j.refused :: c < |j.cells|
    ensures ClearInv(Apply(j, step))
  {
    var j' := Apply(j, step);
    if step.TakeFromQueue? && Enabled(j, step) {
      assert Clear(j, j.queue[0]);
      assert forall i | 0 <= i < |j'.queue| :: j'.queue[i] == j.queue[i + 1];
    }
    forall i | 0 <= i < |j'.queue| ensures Clear(j', j'.queue[i]) {
      if i < |j.queue| {
        assert Clear(j, j.queue[i]) && Names(j, j.queue[i]);
      }
    }
    if step.Refuse? && Enabled(j, step) {
      ClearRefused(j, j');
    }
  }

  /** A new call number is in none of the tables. */
  lemma ClearRefused(j: Job, j': Job)
    requires NamesInv(j) && ClearInv(j) && j'.refused == j.refused + {|j.cells|}
    requires j'.queue == j.queue && j'.pending == j.pending && j'.writer == j.writer && j'.reader == j.reader
    requires j'.draining == j.draining
    ensures ClearInv(j')
  {
    forall id | id in j'.pending ensures Clear(j', j'.pending[id]) {
      assert Names(j, j.pending[id]) && Clear(j, j.pending[id]);
    }
    forall i | 0 <= i < |j'.queue| ensures Clear(j', j'.queue[i]) {
      assert Clear(j, j.queue[i]) && Names(j, j.queue[i]);
    }
  }

  lemma ClearStep(j: Job, step: Step)
    requires NamesInv(j) && ClearInv(j) && forall c | c in j.refused :: c < |j.cells|
    ensures ClearInv(Apply(j, step))
  {
    if step.Call? || step.Refuse? || step.TakeFromQueue? {
      ClearQueue(j, step);
    } else if Enabled(j, step) && step.Disconnect? {
      assert forall id | id in j.pending :: Clear(j, j.pending[id]);
    }
  }

  lemma CellShapes(j: Job, step: Step)
    requires Shapes(j)
    ensures forall c | 0 <= c < |Apply(j, step).cells| :: CellShape(Apply(j, step).cells[c])
  {
    var j' := Apply(j, step);
    forall c | 0 <= c < |j'.cells| ensures CellShape(j'.cells[c]) {
      assert c < |j.cells| ==> CellShape(j.cells[c]);
    }
  }

  /** A completion that nobody refers to is not touched. */
  lemma Untouched(j: Job, step: Step, c: nat)
    requires NamesInv(j) && ClearInv(j) && c in j.refused && c < |j.cells| && c < |j.callers| && j.callers[c] == Returned(false)
    ensures c < |Apply(j, step).cells| && Apply(j, step).cells[c] == j.cells[c]
    ensures c < |Apply(j, step).callers| && Apply(j, step).callers[c] == Returned(false)
  {
  }

  lemma CallShapeStep(j: Job, step: Step, c: nat)
    requires NamesInv(j) && ClearInv(j) && Shapes(j) && c < |j.callers|
    ensures c < |Apply(j, step).callers| && c < |Apply(j, step).cells| && CallShape(Apply(j, step), c)
  {
    assert CallShape(j, c) && CellShape(j.cells[c]);
    DoneStays(j, step, c);
    if c in j.refused {
      Untouched(j, step, c);
    }
  }

  lemma ShapesStep(j: Job, step: Step)
    requires NamesInv(j) && ClearInv(j) && Shapes(j)
    ensures Shapes(Apply(j, step))
  {
    var j' := Apply(j, step);
    CellShapes(j, step);
    forall c: nat | c < |j'.callers| ensures c < |j'.cells| && CallShape(j', c) {
      if c < |j.callers| {
        CallShapeStep(j, step, c);
      }
    }
  }

  lemma {:induction false} ShapesRun(j: Job, steps: seq<Step>)
    requires NamesInv(j) && ClearInv(j) && Shapes(j)
    ensures NamesInv(Run(j, steps)) && Shapes(Run(j, steps))
    decreases |steps|
  {
    if steps != [] {
      NamesStep(j, steps[0]);
      ClearStep(j, steps[0]);
      ShapesStep(j, steps[0]);
      ShapesRun(Apply(j, steps[0]), steps[1..]);
    }
  }

  /** In every run a call that has returned has returned true if and only if its completion was done by a reply
      without error before its deadline passed. */
  lemma TrueExactlyWhen(queueMax: int, steps: seq<Step>, c: nat)
    requires c < |Run(Start(queueMax), steps).callers| && Run(Start(queueMax), steps).callers[c].Returned?
    ensures var j := Run(Start(queueMax), steps);
            && c < |j.cells|
            && (j.callers[c].ok <==> c !in j.expired && j.cells[c].response.Some? && j.cells[c].response.value.code == 0)
  {
    ShapesRun(Start(queueMax), steps);
    var j := Run(Start(queueMax), steps);
    assert CallShape(j, c) && CellShape(j.cells[c]);
  }

  /** Requests wait in the order of their calls. */
  predicate InCallOrder(queue: seq<Entry>, next: nat) {
    && (forall i, k | 0 <= i < k < |queue| :: queue[i].cell < queue[k].cell)
    && (forall i | 0 <= i < |queue| :: queue[i].cell < next)
  }

  lemma CallOrderStep(j: Job, step: Step, j': Job)
    requires InCallOrder(j.queue, |j.cells|) && j' == Apply(j, step)
    ensures InCallOrder(j'.queue, |j'.cells|)
  {
    if !step.Call? && !step.TakeFromQueue? {
      assert j'.queue == j.queue && |j.cells| <= |j'.cells|;
    }
  }

  lemma {:induction false} CallOrderRun(j: Job, steps: seq<Step>)
    requires InCallOrder(j.queue, |j.cells|)
    ensures InCallOrder(Run(j, steps).queue, |Run(j, steps).cells|)
    decreases |steps|
  {
    if steps != [] {
      CallOrderStep(j, steps[0], Apply(j, steps[0]));
      CallOrderRun(Apply(j, steps[0]), steps[1..]);
    }
  }

  /** In every run the writer takes the oldest call that is waiting, and leaves the others waiting. */
  lemma WriterTakesOldest(queueMax: int, steps: seq<Step>)
    requires Enabled(Run(Start(queueMax), steps), TakeFromQueue)
    ensures var j := Run(Start(queueMax), steps);
            var j' := Apply(j, TakeFromQueue);
            && j'.writer.Hand? && j'.writer.entry in j.queue
            && (forall e | e in j.queue && e != j'.writer.entry :: e in j'.queue && j'.writer.entry.cell < e.cell)
  {
    CallOrderRun(Start(queueMax), steps);
    var j := Run(Start(queueMax), steps);
    forall e | e in j.queue && e != j.queue[0] ensures e in j.queue[1..] && j.queue[0].cell < e.cell {
      var i :| 0 <= i < |j.queue| && j.queue[i] == e;
      assert j.queue[1..][i - 1] == e;
    }
  }

  /** A waiting caller whose reply has been matched returns what the reply says. */
  lemma ReplyWakesCaller(j: Job, e: Entry, r: Reply)
    requires NamesInv(j) && j.reader == Matched(e, r) && !j.cells[e.cell].done && j.callers[e.cell] == Waiting
    ensures var j' := Run(j, [Deliver, Wake(e.cell)]);
            && e.cell < |j'.callers| && j'.callers[e.cell] == Returned(r.code == 0)
            && e.cell < |j'.cells| && j'.cells[e.cell].response == Some(r)
  {
    var woken := [Deliver, Wake(e.cell)][1..];
    assert woken == [Wake(e.cell)] && woken[1..] == [];
    assert Run(j, [Deliver, Wake(e.cell)]) == Run(Apply(j, Deliver), woken);
    assert Run(Apply(j, Deliver), woken) == Run(Apply(Apply(j, Deliver), Wake(e.cell)), []);
  }

  // ----- what becomes of a call

  /** A call is queued if and only if it has an id and the queue has room; its caller then waits. */
  lemma QueuedExactlyWhen(j: Job, id: string)
    ensures var j' := Apply(j, Call(id));
            if id != "" && |j.queue| < j.queueMax then
              j'.queue == j.queue + [Entry(id, |j.cells|)] && j'.callers == j.callers + [Waiting] && j'.cells == j.cells + [FRESH]
            else j' == j
    ensures id != "" ==> Apply(j, Refuse(id)).callers == j.callers + [Returned(false)]
  {
  }

  /** A queued call of an idle writer is registered and written: its id reaches Comet and its reply is awaited. */
  lemma OldestIsWritten(j: Job)
    requires NamesInv(j) && j.writer.Idle? && j.queue != [] && !j.cells[j.queue[0].cell].done
    ensures var e := j.queue[0];
            var j' := Apply(Apply(Apply(j, TakeFromQueue), Register), Write(true, true));
            && j'.writer == Idle && j'.queue == j.queue[1..] && e.id in j'.pending && j'.pending[e.id] == e
            && e.id in j'.sent && j'.cells == j.cells && j'.callers == j.callers && j'.reader == j.reader
  {
    assert Names(j, j.queue[0]);
  }

  /** A registered call that is still waited for returns what the reply to its id says, and the reply with it. */
  lemma RegisteredCallReturns(j: Job, r: Reply)
    requires NamesInv(j) && j.reader.Reading? && r.id in j.pending
    requires var c := j.pending[r.id].cell; c < |j.cells| && c < |j.callers| && !j.cells[c].done && j.callers[c] == Waiting
    ensures var c := j.pending[r.id].cell;
            var j' := Run(Apply(j, Read(r)), [Deliver, Wake(c)]);
            && c < |j'.callers| && j'.callers[c] == Returned(r.code == 0)
            && c < |j'.cells| && j'.cells[c].response == Some(r)
  {
    var e := j.pending[r.id];
    NamesStep(j, Read(r));
    ReplyWakesCaller(Apply(j, Read(r)), e, r);
  }

  /** A reply to an id that is not registered is dropped. */
  lemma OtherRepliesDropped(j: Job, r: Reply)
    requires r.id !in j.pending
    ensures Apply(j, Read(r)) == j
  {
  }

  /** A call whose completion is done before it is written is not written at all. */
  lemma AnsweredIsNotWritten(j: Job, e: Entry)
    requires j.writer == Hand(e) && e.cell < |j.cells| && j.cells[e.cell].done
    ensures Apply(j, Register) == j.(writer := Idle)
  {
  }

  /** After a failed write the call is no longer registered, unless another call is under its id, and is tried again
      unless it has been answered meanwhile; a writer that gives it up fails it. */
  lemma FailedWriteIsRetried(j: Job, e: Entry)
    requires NamesInv(j) && j.writer == Writing(e)
    ensures var j' := Apply(Apply(Apply(j, Write(false, false)), WithdrawWrite), Recheck);
            && j'.writer == (if j.cells[e.cell].done then Idle else Hand(e)) && j'.sent == j.sent
            && (e.id in j'.pending <==> e.id in j.pending && j.pending[e.id].cell != e.cell)
            && (forall id | id != e.id :: id in j'.pending <==> id in j.pending)
    ensures var j' := Apply(Apply(Apply(j, Write(false, false)), WithdrawWrite), GiveUp);
            j'.writer == Idle && j'.cells[e.cell].done
  {
  }

  /** A caller whose deadline passes returns false; its own registration goes with it and no other. */
  lemma DeadlineReturnsFalse(j: Job, c: nat)
    requires NamesInv(j) && Enabled(j, Deadline(c))
    ensures var j' := Apply(Apply(Apply(j, Deadline(c)), WithdrawCall(c)), MarkCall(c));
            && c < |j'.callers| && j'.callers[c] == Returned(false) && c < |j'.cells| && j'.cells[c].done
            && (forall id | id in j.pending && j.pending[id].cell != c :: id in j'.pending && j'.pending[id] == j.pending[id])
            && (forall id | id in j'.pending :: j'.pending[id].cell != c)
  {
    assert forall id | id in j.pending && j.pending[id].cell == c :: id == j.ids[c];
  }

  /** When the stream is lost, a registered call that is still waited for returns false. */
  lemma LostStreamFailsCall(j: Job, id: string)
    requires NamesInv(j) && id in j.pending
    requires var c := j.pending[id].cell; c < |j.cells| && c < |j.callers| && !j.cells[c].done && j.callers[c] == Waiting
    ensures var c := j.pending[id].cell;
            var lost := Apply(j, Disconnect);
            var j' := Apply(Apply(lost, FailOne(c)), Wake(c));
            lost.pending == map[] && c < |j'.callers| && j'.callers[c] == Returned(false)
  {
    assert j.pending[id].cell in Cells(j.pending);
  }

  // ----- no call is lost

  predicate HeldApart(j: Job, c: nat) {
    || (exists id | id in j.pending :: j.pending[id].cell == c)
    || (j.reader.Matched? && j.reader.entry.cell == c)
    || c in j.draining
  }

  predicate InQueue(j: Job, c: nat) {
    exists i | 0 <= i < |j.queue| :: j.queue[i].cell == c
  }

  /** Some thread or table will still do something about the call. */
  predicate Held(j: Job, c: nat) {
    HeldApart(j, c) || InQueue(j, c) || (!j.writer.Idle? && j.writer.entry.cell == c)
  }

  /** Another call has the same request id. */
  predicate Shared(j: Job, c: nat)
    requires c < |j.ids|
  {
    exists d | 0 <= d < |j.ids| :: d != c && j.ids[d] == j.ids[c]
  }

  predicate Awaited(j: Job, c: nat) {
    c < |j.cells| && c < |j.callers| && c < |j.ids| && j.callers[c] == Waiting && !j.cells[c].done
  }

  predicate NotLost(j: Job, c: nat) {
    Awaited(j, c) ==>
      && (Held(j, c) || Shared(j, c))
      && (j.writer.Writing? && j.writer.entry.cell == c ==> HeldApart(j, c) || Shared(j, c))
  }

  lemma SharedStays(j: Job, step: Step, c: nat)
    requires c < |j.ids| && Shared(j, c)
    ensures c < |Apply(j, step).ids| && Shared(Apply(j, step), c)
  {
    var d :| 0 <= d < |j.ids| && d != c && j.ids[d] == j.ids[c];
    assert Apply(j, step).ids[d] == Apply(j, step).ids[c];
  }

  lemma AwaitedBefore(j: Job, step: Step, c: nat)
    requires NamesInv(j) && Awaited(Apply(j, step), c) && c < |j.cells|
    ensures Awaited(j, c)
  {
    DoneStays(j, step, c);
  }

  /** The tables outside the queue and the writer: what leaves one of them for nowhere is no longer awaited. */
  lemma ApartStays(j: Job, step: Step, c: nat)
    requires NamesInv(j) && HeldApart(j, c) && Awaited(j, c) && Awaited(Apply(j, step), c)
    requires !step.Register? && !step.Disconnect? && !step.WithdrawWrite?
    ensures HeldApart(Apply(j, step), c)
  {
    var j' := Apply(j, step);
    if id :| id in j.pending && j.pending[id].cell == c {
      if step.Read? && Enabled(j, step) && id == step.reply.id {
        assert j'.reader.entry.cell == c;
      } else if step.WithdrawCall? && Enabled(j, step) {
        assert id in j'.pending;
      } else {
        assert id in j'.pending;
      }
    }
  }

  lemma ApartRegister(j: Job, c: nat)
    requires NamesInv(j) && HeldApart(j, c) && Awaited(j, c)
    ensures HeldApart(Apply(j, Register), c) || Shared(j, c)
  {
    var j' := Apply(j, Register);
    if id :| id in j.pending && j.pending[id].cell == c {
      if Enabled(j, Register) && id == j.writer.entry.id && j.writer.entry.cell != c {
        assert Names(j, j.writer.entry) && Names(j, j.pending[id]);
        assert j.ids[j.writer.entry.cell] == j.ids[c];
      } else {
        assert id in j'.pending && j'.pending[id].cell == c;
      }
    }
  }

  lemma ApartDisconnect(j: Job, c: nat)
    requires HeldApart(j, c)
    ensures HeldApart(Apply(j, Disconnect), c)
  {
    if id :| id in j.pending && j.pending[id].cell == c {
      assert c in Cells(j.pending);
    }
  }

  /** The writer lets go of a call only when it is registered, withdrawn to be tried again, or done. */
  lemma WriterKeeps(j: Job, step: Step, c: nat)
    requires NamesInv(j) && NotLost(j, c) && Awaited(j, c) && Awaited(Apply(j, step), c)
    requires !j.writer.Idle? && j.writer.entry.cell == c && !Shared(j, c)
    requires step.Register? || step.Write? || step.WithdrawWrite? || step.Recheck? || step.GiveUp?
    ensures NotLost(Apply(j, step), c)
  {
    var j' := Apply(j, step);
    if Enabled(j, step) && step.Register? {
      assert j.writer.entry.id in j'.pending;
    }
  }

  lemma QueueKeeps(j: Job, step: Step, c: nat)
    requires InQueue(j, c)
    ensures InQueue(Apply(j, step), c) ||
              (step.TakeFromQueue? && Apply(j, step).writer.Hand? && Apply(j, step).writer.entry.cell == c)
  {
    var j' := Apply(j, step);
    var i :| 0 <= i < |j.queue| && j.queue[i].cell == c;
    if step.TakeFromQueue? && Enabled(j, step) {
      if i > 0 {
        assert j'.queue[i - 1].cell == c;
      }
    } else {
      assert j'.queue[i].cell == c;
    }
  }

  lemma NotLostStep(j: Job, step: Step, c: nat)
    requires NamesInv(j) && NotLost(j, c)
    ensures NotLost(Apply(j, step), c)
  {
    var j' := Apply(j, step);
    if Awaited(j', c) {
      if c >= |j.cells| {
        assert step.Call? && j'.queue[|j.queue|].cell == c;
        assert InQueue(j', c);
        assert j'.writer.Writing? ==> Names(j, j'.writer.entry);
      } else {
        AwaitedBefore(j, step, c);
        if Shared(j, c) {
          SharedStays(j, step, c);
        } else {
          UnsharedStep(j, step, c);
        }
      }
    }
  }

  lemma UnsharedStep(j: Job, step: Step, c: nat)
    requires NamesInv(j) && NotLost(j, c) && Awaited(j, c) && Awaited(Apply(j, step), c) && !Shared(j, c)
    ensures NotLost(Apply(j, step), c)
  {
    var writers := step.Register? || step.Write? || step.WithdrawWrite? || step.Recheck? || step.GiveUp?;
    if writers && !j.writer.Idle? && j.writer.entry.cell == c {
      WriterKeeps(j, step, c);
    } else {
      if HeldApart(j, c) {
        ApartKept(j, step, c);
      }
      if InQueue(j, c) {
        QueueKeeps(j, step, c);
      }
    }
  }

  lemma ApartKept(j: Job, step: Step, c: nat)
    requires NamesInv(j) && HeldApart(j, c) && Awaited(j, c) && Awaited(Apply(j, step), c) && !Shared(j, c)
    requires step.WithdrawWrite? ==> j.writer.Idle? || j.writer.entry.cell != c
    ensures HeldApart(Apply(j, step), c)
  {
    match step
    case Register => ApartRegister(j, c);
    case Disconnect => ApartDisconnect(j, c);
    case WithdrawWrite =>
      if id :| id in j.pending && j.pending[id].cell == c {
        assert id in Apply(j, step).pending;
      }
    case _ => ApartStays(j, step, c);
  }

  lemma {:induction false} NotLostRun(j: Job, steps: seq<Step>, c: nat)
    requires NamesInv(j) && NotLost(j, c)
    ensures NotLost(Run(j, steps), c)
    decreases |steps|
  {
    if steps != [] {
      NamesStep(j, steps[0]);
      NotLostStep(j, steps[0], c);
      NotLostRun(Apply(j, steps[0]), steps[1..], c);
    }
  }

  /** In every run a call that is still waited for is queued, with the writer, registered, matched by the reader or
      being failed, unless another call has the same id: only such a call can lose its registration, to the other. */
  lemma NoCallLost(queueMax: int, steps: seq<Step>, c: nat)
    requires Awaited(Run(Start(queueMax), steps), c)
    ensures var j := Run(Start(queueMax), steps);
            Held(j, c) || exists d | 0 <= d < |j.ids| :: d != c && j.ids[d] == j.ids[c]
  {
    NotLostRun(Start(queueMax), steps, c);
  }

  lemma RunTwo(j: Job, steps: seq<Step>, a: Step, b: Step)
    ensures Run(j, steps + [a, b]) == Apply(Apply(Run(j, steps), a), b)
    decreases |steps|
  {
    if steps == [] {
      assert steps + [a, b] == [a, b] && [a, b][1..] == [b] && [b][1..] == [];
      assert Run(j, [a, b]) == Run(Apply(j, a), [b]) == Run(Apply(Apply(j, a), b), []);
    } else {
      assert (steps + [a, b])[1..] == steps[1..] + [a, b];
      RunTwo(Apply(j, steps[0]), steps[1..], a, b);
    }
  }

  /** One of two queued calls of the same id that the writer takes and registers. */
  lemma TakenAndRegistered(j: Job, e: Entry)
    requires j.writer.Idle? && j.queue != [] && j.queue[0] == e && e.cell < |j.cells| && !j.cells[e.cell].done
    ensures var j' := Apply(Apply(j, TakeFromQueue), Register);
            j' == j.(queue := j.queue[1..], pending := j.pending[e.id := e], writer := Writing(e))
  {
  }

  /** Two calls of one id, the first of them written. */
  function OneWritten(): Job {
    Start(2).(cells := [FRESH, FRESH], ids := ["m", "m"], callers := [Waiting, Waiting], pending := map["m" := Entry("m", 0)],
    writer := Hand(Entry("m", 1)), sent := {"m"})
  }

  lemma FirstIsWritten() returns (steps: seq<Step>)
    ensures Run(Start(2), steps) == OneWritten()
  {
    var first, second := Entry("m", 0), Entry("m", 1);
    RunTwo(Start(2), [], Call("m"), Call("m"));
    steps := [] + [Call("m"), Call("m")];
    assert Run(Start(2), steps) ==
           Start(2).(queue := [first, second], cells := [FRESH, FRESH], ids := ["m", "m"], callers := [Waiting, Waiting]);
    TakenAndRegistered(Run(Start(2), steps), first);
    RunTwo(Start(2), steps, TakeFromQueue, Register);
    steps := steps + [TakeFromQueue, Register];
    assert [first, second][1..] == [second] && [second][1..] == [];
    RunTwo(Start(2), steps, Write(true, true), TakeFromQueue);
    steps := steps + [Write(true, true), TakeFromQueue];
  }

  /** Such a loss happens: a second call of an id takes over the registration of the first, which then waits for its
      deadline although its request was written. */
  lemma RedeliveryLosesFirst() returns (steps: seq<Step>)
    ensures var j := Run(Start(2), steps);
            Awaited(j, 0) && !Held(j, 0) && "m" in j.sent && "m" in j.pending && j.pending["m"].cell == 1
  {
    var before := FirstIsWritten();
    RunTwo(Start(2), before, Register, Recheck);
    steps := before + [Register, Recheck];
    var j := Run(Start(2), steps);
    assert j == OneWritten().(pending := map["m" := Entry("m", 1)], writer := Writing(Entry("m", 1)));
  }

  // ----- the lock-held sections in the form of the source

  class Stream {
    const queueMax: int
    var queue: seq<Entry>
    var pending: map<string, Entry>
    var cells: seq<Cell>
    ghost var ids: seq<string>

    constructor (queueMax: int)
      ensures this.queueMax == queueMax && queue == [] && pending == map[] && cells == [] && ids == []
    {
      this.queueMax, queue, pending, cells, ids := queueMax, [], map[], [], [];
    }

    /** This object and the state machine agree on the shared fields. */
    ghost predicate Shows(j: Job)
      reads this
    {
      j.queueMax == queueMax && j.queue == queue && j.pending == pending && j.cells == cells && j.ids == ids
    }

    method Enqueue(id: string, ghost j: Job) returns (call: Option<nat>)
      requires id != "" && Shows(j)
      modifies this
      ensures Shows(Apply(j, if call.Some? then Call(id) else Refuse(id)))
      ensures call.Some? <==> Enabled(j, Call(id))
      ensures call.Some? ==> call.value == |old(cells)| && cells[call.value] == FRESH
    {
      var completion := |cells|;
      cells := cells + [FRESH];
      ids := ids + [id];
      if |queue| >= queueMax {
        return None;
      }
      queue := queue + [Entry(id, completion)];
      return Some(completion);
    }

    method RegisterWrite(e: Entry, ghost j: Job) returns (registered: bool)
      requires Shows(j) && j.writer == Hand(e) && e.cell < |cells|
      modifies this
      ensures Shows(Apply(j, Register))
      ensures Apply(j, Register).writer == if registered then Writing(e) else Idle
    {
      if cells[e.cell].done { return false; }
      pending := pending[e.id := e];
      return true;
    }

    method WithdrawOwn(id: string, cell: nat)
      modifies this
      ensures pending == Withdraw(old(pending), id, cell)
      ensures queue == old(queue) && cells == old(cells) && ids == old(ids)
    {
      if id in pending && pending[id].cell == cell {
        pending := pending - {id};
      }
    }

    method Match(r: Reply, ghost j: Job) returns (entry: Option<Entry>)
      requires Shows(j) && j.reader == Reading
      modifies this
      ensures Shows(Apply(j, Read(r)))
      ensures Apply(j, Read(r)).reader == if entry.Some? then Matched(entry.value, r) else Reading
    {
      if r.id !in pending { return None; }
      entry := Some(pending[r.id]);
      pending := pending - {r.id};
    }

    method DeliverReply(e: Entry, r: Reply, ghost j: Job)
      requires Shows(j) && j.reader == Matched(e, r) && e.cell < |cells|
      modifies this
      ensures Shows(Apply(j, Deliver))
    {
      if !cells[e.cell].done {
        cells := cells[e.cell := Cell(true, r.code == 0, Some(r))];
      }
    }

    /** The disconnect path: the table is emptied first, then every completion taken from it is failed
        unless it is already done. */
    method FailPending()
      requires forall id | id in pending :: pending[id].cell < |cells|
      modifies this
      ensures pending == map[] && queue == old(queue) && ids == old(ids) && |cells| == |old(cells)|
      ensures forall c | 0 <= c < |cells| ::
                cells[c] == if c in Cells(old(pending)) then Fail(old(cells)[c]) else old(cells)[c]
    {
      var failed := Cells(pending);
      pending := map[];
      var todo := failed;
      while todo != {}
        invariant todo <= failed && pending == map[] && queue == old(queue) && ids == old(ids)
        invariant |cells| == |old(cells)|
        invariant forall c | 0 <= c < |cells| ::
                    cells[c] == if c in failed - todo then Fail(old(cells)[c]) else old(cells)[c]
        decreases |todo|
      {
        var c :| c in todo;
        todo := todo - {c};
        if !cells[c].done {
          cells := cells[c := cells[c].(done := true, ok := false)];
        }
      }
    }
  }
}
