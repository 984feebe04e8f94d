/** The gateway's server-sent event stream: line splitting, event dispatch and the terminal-state rules.
    What a dispatched event contains is the result of `decode`, an arbitrary function of its name and data. */
module SseParser {
  import opened IncrementalParsing

  const MAX_BYTES: nat := 16 * 1024 * 1024

  const BUFFER_EXCEEDED := "gateway SSE buffer exceeds limit"
  const EVENT_EXCEEDED := "gateway SSE event exceeds limit"
  const AFTER_DONE := "gateway sent data after stream completion"
  const NO_FINAL := "gateway omitted the successful final result"
  const NOT_OBJECT := "gateway SSE event is not an object"
  const BAD_AGENT := "invalid AgentEvent"
  const EXECUTION_ERROR := "Pi gateway reported an execution error"
  const LATE_PROGRESS := "progress arrived after final answer"
  const BAD_FINAL_SIZE := "invalid gateway final answer size"
  const BAD_METADATA := "invalid gateway response metadata"
  const CONFLICT := "conflicting gateway final answers"
  const BAD_CHOICES := "invalid gateway choices"
  const BAD_CHOICE := "invalid gateway choice"
  const LATE_DELTA := "gateway delta arrived after final answer"
  const TEXT_EXCEEDED := "gateway answer exceeds limit"
  const BAD_FINISH := "gateway finish_reason has invalid type"
  const NOT_STOP := "gateway answer did not finish successfully"
  const BAD_JSON := "invalid gateway SSE JSON or field type"
  const NO_TERMINAL := "gateway stream ended without a successful terminal event"
  const EMPTY_ANSWER := "gateway returned an empty answer"

  // ----- decoded events

  datatype Audit = NoAudit | Audited(finishReason: string) | AuditMalformed
  datatype Metadata = Metadata(raw: string, audit: Audit, citations: string)

  /** A final answer, one whose text has the wrong type, or one whose metadata is not an object. */
  datatype Final = Answer(text: string, metadata: Metadata) | TextMalformed | MetadataMalformed(text: string)

  datatype FinishReason = NoReason | ReasonMalformed | Reason(name: string)

  datatype Event =
    | Malformed
    | NotObject
    | AgentInvalid
    | AgentError(normalized: string, cancelled: bool, unconfirmed: bool)
    | AgentProgress(normalized: string, text: string)
    | AgentDelta(normalized: string, text: string)
    | AgentFinal(normalized: string, final: Final)
    | ErrorEvent
    | FinalEvent(final: Final)
    | NoChoices
    | ChoicesMalformed
    | EmptyChoices
    | ChoiceMalformed
    | Choice(text: string, finish: FinishReason)

  // ----- state

  datatype Result = Result(text: string, finishReason: string, chunks: nat, agentEvent: string, citations: string,
                           metadata: string, terminalStatus: string, unconfirmed: bool)

  datatype Callback = OnDelta(text: string) | OnProgress(text: string) | OnAgentEvent(normalized: string)

  /** What was dispatched: the end marker or a decoded event. */
  datatype Dispatch = DoneMarker | Decoded(event: Event)

  /** `failure` is empty while nothing has failed. `callbacks` and `seen` are history. */
  datatype State = State(data: string, name: string, failure: string, finalText: string, finalMetadata: string,
                         final: bool, stopped: bool, done: bool, result: Result,
                         callbacks: seq<Callback>, seen: seq<Dispatch>)

  const EMPTY_RESULT := Result("", "", 0, "{}", "[]", "{}", "", false)
  /** The parser: the bytes after the last line break, and everything else. */
  datatype Parser = Parser(pending: string, state: State)

  const START := Parser("", State("", "", "", "", "{}", false, false, false, EMPTY_RESULT, [], []))

  function Clear(r: Result): Result {
    EMPTY_RESULT.(terminalStatus := r.terminalStatus, unconfirmed := r.unconfirmed)
  }

  /** The first failure is kept; the result is cleared. */
  function Fail(s: State, message: string): State {
    s.(failure := if s.failure == "" then message else s.failure, result := Clear(s.result))
  }

  function Call(s: State, c: Callback): State {
    s.(callbacks := s.callbacks + [c])
  }

  // ----- events

  function OnFinal(s: State, f: Final): State {
    match f
    case TextMalformed => Fail(s, BAD_JSON)
    case MetadataMalformed(text) =>
      if text == "" || |text| > MAX_BYTES then Fail(s, BAD_FINAL_SIZE) else Fail(s, BAD_METADATA)
    case Answer(text, m) =>
      if text == "" || |text| > MAX_BYTES then Fail(s, BAD_FINAL_SIZE)
      else if s.final && (s.finalText != text || s.result.metadata != m.raw) then Fail(s, CONFLICT)
      else
        var s' := s.(final := true, finalText := text, finalMetadata := m.raw,
        result := s.result.(text := text, metadata := m.raw));
        if m.audit.AuditMalformed? then Fail(s', BAD_JSON)
        else
          s'.(result := s'.result.(citations := m.citations,
          finishReason := if m.audit.Audited? then m.audit.finishReason else s'.result.finishReason))
  }

  function OnChoice(s: State, text: string, finish: FinishReason): State {
    if text != "" && (s.final || s.stopped) then Fail(s, LATE_DELTA)
    else if text != "" && |s.result.text| + |text| > MAX_BYTES then Fail(s, TEXT_EXCEEDED)
    else
      var s' := if text == "" then s
                else Call(s.(result := s.result.(text := s.result.text + text, chunks := s.result.chunks + 1)), OnDelta(text));
      match finish
      case NoReason => s'
      case ReasonMalformed => Fail(s', BAD_FINISH)
      case Reason(name) =>
        var s'' := s'.(result := s'.result.(finishReason := name));
        if name != "stop" then Fail(s'', NOT_STOP) else s''.(stopped := true)
  }

  function OnEvent(s: State, e: Event): State {
    match e
    case Malformed => Fail(s, BAD_JSON)
    case NotObject => Fail(s, NOT_OBJECT)
    case AgentInvalid => Fail(s, BAD_AGENT)
    case AgentError(n, cancelled, unconfirmed) =>
      Fail(Call(s, OnAgentEvent(n)).(result := s.result.(terminalStatus := if cancelled then "cancelled" else "failed",
           unconfirmed := unconfirmed)), EXECUTION_ERROR)
    case AgentProgress(n, text) =>
      var s' := Call(s, OnAgentEvent(n));
      if s.final || s.stopped then Fail(s', LATE_PROGRESS) else Call(s', OnProgress(text))
    case AgentDelta(n, text) => OnChoice(Call(s, OnAgentEvent(n)), text, NoReason)
    case AgentFinal(n, f) => OnFinal(Call(s, OnAgentEvent(n)).(result := s.result.(agentEvent := n)), f)
    case ErrorEvent => Fail(s, EXECUTION_ERROR)
    case FinalEvent(f) => OnFinal(s, f)
    case NoChoices => s
    case ChoicesMalformed => Fail(s, BAD_CHOICES)
    case EmptyChoices => s
    case ChoiceMalformed => Fail(s, BAD_CHOICE)
    case Choice(text, finish) => OnChoice(s, text, finish)
  }

  /** The data of an event without its trailing newlines. */
  function Trim(data: string): string {
    if data != "" && data[|data| - 1] == '\n' then Trim(data[..|data| - 1]) else data
  }

  type Decoder = (string, string) -> Event

  function ProcessEvent(decode: Decoder, s: State): State {
    if s.data == "" then s.(name := "")
    else
      var data, name := Trim(s.data), s.name;
      var s' := s.(data := "", name := "");
      if s.done then Fail(s', AFTER_DONE)
      else if data == "[DONE]" then
        var s'' := s'.(seen := s.seen + [DoneMarker]);
        if !s.final && !s.stopped then Fail(s'', NO_FINAL) else s''.(done := true)
      else
        var e := decode(name, data);
        OnEvent(s'.(seen := s.seen + [Decoded(e)]), e)
  }

  // ----- lines

  function Find(text: string, c: char): (i: nat)
    ensures i <= |text| && (i < |text| ==> text[i] == c) && forall k | 0 <= k < i :: text[k] != c
  {
    if text == "" || text[0] == c then 0 else 1 + Find(text[1..], c)
  }

  /** A complete line at the front of the buffer, without its line break. */
  function LineFront(buffer: string): Front<string> {
    var end := Find(buffer, '\n');
    if end == |buffer| then Incomplete else More(buffer[..end], end + 1)
  }

  function DropPrefix(line: string, n: nat): string
    requires n <= |line|
  {
    var rest := line[n..];
    if rest != "" && rest[0] == ' ' then rest[1..] else rest
  }

  function Line(decode: Decoder, s: State, raw: string): State {
    var line := if raw != "" && raw[|raw| - 1] == '\r' then raw[..|raw| - 1] else raw;
    if line == "" then ProcessEvent(decode, s)
    else if "event:" <= line then s.(name := DropPrefix(line, 6))
    else if "data:" <= line then
      var data := DropPrefix(line, 5);
      if |s.data| + |data| + 1 > MAX_BYTES then Fail(s, EVENT_EXCEEDED) else s.(data := s.data + data + "\n")
    else s
  }

  /** Handles lines until one of them fails. */
  function Lines(decode: Decoder, s: State, lines: seq<string>): State
    decreases |lines|
  {
    if lines == [] || s.failure != "" then s else Lines(decode, Line(decode, s, lines[0]), lines[1..])
  }

  lemma LineSound()
    ensures Sound(LineFront)
  {
  }

  lemma FindMore(a: string, b: string, c: char)
    requires Find(a, c) < |a|
    ensures Find(a + b, c) == Find(a, c)
  {
    var i := Find(a, c);
    assert (a + b)[i] == c;
    forall k | 0 <= k < i ensures (a + b)[k] != c {
      assert (a + b)[k] == a[k];
    }
  }

  lemma LineStable()
    ensures Stable(LineFront)
  {
    forall a: string, b: string | !LineFront(a).Incomplete? ensures LineFront(a + b) == LineFront(a) {
      FindMore(a, b, '\n');
      assert (a + b)[..Find(a, '\n')] == a[..Find(a, '\n')];
    }
  }

  function Split(buffer: string): Outcome<string, char> {
    LineSound();
    Drain(LineFront, buffer)
  }

  function Fed(decode: Decoder, p: Parser, chunk: string): Parser {
    if p.state.failure != "" then p.(state := Fail(p.state, p.state.failure))
    else if |p.pending| + |chunk| > MAX_BYTES then p.(state := Fail(p.state, BUFFER_EXCEEDED))
    else
      var split := Split(p.pending + chunk);
      Parser(split.rest, Lines(decode, p.state, split.items))
  }

  function Conclude(s: State): State {
    if !s.done || (!s.final && !s.stopped) then Fail(s, NO_TERMINAL)
    else if s.result.text == "" then Fail(s, EMPTY_ANSWER)
    else s
  }

  /** The verdict of Finish is success exactly when no failure is left. */
  function Finished(decode: Decoder, p: Parser): State {
    var s := if p.pending == "" || p.state.failure != "" then p.state else Fed(decode, p, "\n").state;
    if s.failure != "" then Fail(s, s.failure)
    else
      var s' := ProcessEvent(decode, s);
      if s'.failure != "" then s' else Conclude(s')
  }

  // ----- chunking

  /** Equal, except that the bytes left over after a failure do not matter. */
  predicate Same(a: Parser, b: Parser) {
    a.state == b.state && (a.state.failure == "" ==> a.pending == b.pending)
  }

  predicate Clean(s: State) {
    s.failure != "" ==> s.result == Clear(s.result)
  }

  lemma FinalClean(s: State, f: Final)
    requires s.failure == ""
    ensures Clean(OnFinal(s, f))
  {
  }

  lemma ChoiceClean(s: State, text: string, finish: FinishReason)
    requires s.failure == ""
    ensures Clean(OnChoice(s, text, finish))
  {
  }

  lemma EventClean(s: State, e: Event)
    requires s.failure == ""
    ensures Clean(OnEvent(s, e))
  {
    match e {
      case AgentDelta(n, text) => ChoiceClean(Call(s, OnAgentEvent(n)), text, NoReason);
      case Choice(text, finish) => ChoiceClean(s, text, finish);
      case AgentFinal(n, f) => FinalClean(Call(s, OnAgentEvent(n)).(result := s.result.(agentEvent := n)), f);
      case FinalEvent(f) => FinalClean(s, f);
      case _ =>
    }
  }

  lemma LineClean(decode: Decoder, s: State, raw: string)
    requires s.failure == ""
    ensures Clean(Line(decode, s, raw))
  {
    if s.data != "" && !s.done && Trim(s.data) != "[DONE]" {
      var e := decode(s.name, Trim(s.data));
      EventClean(s.(data := "", name := "", seen := s.seen + [Decoded(e)]), e);
    }
  }

  lemma {:induction false} LinesClean(decode: Decoder, s: State, lines: seq<string>)
    requires Clean(s)
    ensures Clean(Lines(decode, s, lines))
    decreases |lines|
  {
    if lines != [] && s.failure == "" {
      LineClean(decode, s, lines[0]);
      LinesClean(decode, Line(decode, s, lines[0]), lines[1..]);
    }
  }

  lemma {:induction false} LinesAppend(decode: Decoder, s: State, xs: seq<string>, ys: seq<string>)
    ensures Lines(decode, s, xs + ys) == Lines(decode, Lines(decode, s, xs), ys)
    decreases |xs|
  {
    if xs == [] {
      assert xs + ys == ys;
    } else if s.failure == "" {
      assert (xs + ys)[0] == xs[0] && (xs + ys)[1..] == xs[1..] + ys;
      LinesAppend(decode, Line(decode, s, xs[0]), xs[1..], ys);
    }
  }

  lemma {:induction false} SplitShrinks(buffer: string)
    ensures |Split(buffer).rest| <= |buffer| && !Split(buffer).closed
    decreases |buffer|
  {
    LineSound();
    if LineFront(buffer).More? {
      SplitShrinks(buffer[LineFront(buffer).used..]);
    }
  }

  lemma SplitInTwo(a: string, b: string)
    ensures Split(a + b).items == Split(a).items + Split(Split(a).rest + b).items
    ensures Split(a + b).rest == Split(Split(a).rest + b).rest
  {
    LineSound();
    LineStable();
    DrainSplit(LineFront, a, b);
    SplitShrinks(a);
  }

  /** Within the buffer limit, feeding a stream in two pieces is feeding it in one: the same fields, the
      same callbacks in the same order, the same failure. */
  lemma FeedTwice(decode: Decoder, p: Parser, a: string, b: string)
    requires Clean(p.state) && |p.pending| + |a| + |b| <= MAX_BYTES
    ensures Same(Fed(decode, Fed(decode, p, a), b), Fed(decode, p, a + b))
  {
    if p.state.failure == "" {
      var first := Fed(decode, p, a);
      SplitInTwo(p.pending + a, b);
      SplitShrinks(p.pending + a);
      assert p.pending + a + b == p.pending + (a + b);
      var xs, ys := Split(p.pending + a).items, Split(first.pending + b).items;
      LinesAppend(decode, p.state, xs, ys);
      LinesClean(decode, p.state, xs);
    }
  }

  function FeedAll(decode: Decoder, p: Parser, chunks: seq<string>): Parser {
    if chunks == [] then p
    else Fed(decode, FeedAll(decode, p, chunks[..|chunks| - 1]), chunks[|chunks| - 1])
  }

  lemma FeedClean(decode: Decoder, p: Parser, chunk: string)
    requires Clean(p.state)
    ensures Clean(Fed(decode, p, chunk).state)
    ensures |p.pending| + |chunk| <= MAX_BYTES ==> |Fed(decode, p, chunk).pending| <= |p.pending| + |chunk|
  {
    LinesClean(decode, p.state, Split(p.pending + chunk).items);
    SplitShrinks(p.pending + chunk);
  }

  /** No arrival finds the buffer too full while the parser is still working. */
  predicate Fits(decode: Decoder, chunks: seq<string>) {
    chunks == [] ||
    (var n := |chunks| - 1;
     var p := FeedAll(decode, START, chunks[..n]);
     Fits(decode, chunks[..n]) && (p.state.failure != "" || |p.pending| + |chunks[n]| <= MAX_BYTES))
  }

  /** What a stream means on its own: its complete lines handled in order, the rest kept. */
  function Meaning(decode: Decoder, stream: string): Parser {
    Parser(Split(stream).rest, Lines(decode, START.state, Split(stream).items))
  }

  lemma MeaningTwice(decode: Decoder, a: string, b: string)
    ensures var p := Meaning(decode, a);
            Same(Parser(Split(p.pending + b).rest, Lines(decode, p.state, Split(p.pending + b).items)), Meaning(decode, a + b))
  {
    SplitInTwo(a, b);
    LinesAppend(decode, START.state, Split(a).items, Split(Split(a).rest + b).items);
  }

  /** One more arrival that fits, or comes after a failure. */
  lemma FedIsMeaning(decode: Decoder, p: Parser, a: string, b: string)
    requires Same(p, Meaning(decode, a)) && (p.state.failure != "" || |p.pending| + |b| <= MAX_BYTES)
    ensures Same(Fed(decode, p, b), Meaning(decode, a + b))
  {
    MeaningTwice(decode, a, b);
    LinesClean(decode, START.state, Split(a).items);
    if p.state.failure != "" {
      LinesFailed(decode, p.state, Split(Split(a).rest + b).items);
    }
  }

  lemma LinesFailed(decode: Decoder, s: State, lines: seq<string>)
    requires s.failure != ""
    ensures Lines(decode, s, lines) == s
  {
  }

  /** A division that fits leads to what the stream means, of whatever length it is. */
  lemma {:induction false} FittingIsMeaning(decode: Decoder, chunks: seq<string>)
    requires Fits(decode, chunks)
    ensures Same(FeedAll(decode, START, chunks), Meaning(decode, Concat(chunks)))
  {
    if chunks == [] {
      LineSound();
    } else {
      var n := |chunks| - 1;
      FittingIsMeaning(decode, chunks[..n]);
      FedIsMeaning(decode, FeedAll(decode, START, chunks[..n]), Concat(chunks[..n]), chunks[n]);
    }
  }

  lemma FailedStays(decode: Decoder, p: Parser, chunk: string)
    requires p.state.failure != ""
    ensures Fed(decode, p, chunk).state.failure == p.state.failure
  {
  }

  /** A division that does not fit fails for that reason. */
  lemma {:induction false} NotFittingExceeds(decode: Decoder, chunks: seq<string>)
    requires !Fits(decode, chunks)
    ensures FeedAll(decode, START, chunks).state.failure == BUFFER_EXCEEDED
  {
    var n := |chunks| - 1;
    if !Fits(decode, chunks[..n]) {
      NotFittingExceeds(decode, chunks[..n]);
      FailedStays(decode, FeedAll(decode, START, chunks[..n]), chunks[n]);
    }
  }

  lemma FinalReasons(s: State, f: Final)
    requires s.failure == ""
    ensures OnFinal(s, f).failure != BUFFER_EXCEEDED
  {
  }

  lemma ChoiceReasons(s: State, text: string, finish: FinishReason)
    requires s.failure == ""
    ensures OnChoice(s, text, finish).failure != BUFFER_EXCEEDED
  {
  }

  lemma EventReasons(s: State, e: Event)
    requires s.failure == ""
    ensures OnEvent(s, e).failure != BUFFER_EXCEEDED
  {
    match e {
      case AgentDelta(n, text) => ChoiceReasons(Call(s, OnAgentEvent(n)), text, NoReason);
      case Choice(text, finish) => ChoiceReasons(s, text, finish);
      case AgentFinal(n, f) => FinalReasons(Call(s, OnAgentEvent(n)).(result := s.result.(agentEvent := n)), f);
      case FinalEvent(f) => FinalReasons(s, f);
      case _ =>
    }
  }

  lemma LineReasons(decode: Decoder, s: State, raw: string)
    requires s.failure == ""
    ensures Line(decode, s, raw).failure != BUFFER_EXCEEDED
  {
    if s.data != "" && !s.done && Trim(s.data) != "[DONE]" {
      var e := decode(s.name, Trim(s.data));
      EventReasons(s.(data := "", name := "", seen := s.seen + [Decoded(e)]), e);
    }
  }

  /** No line fails for lack of room in the buffer. */
  lemma {:induction false} LinesReasons(decode: Decoder, s: State, lines: seq<string>)
    requires s.failure != BUFFER_EXCEEDED
    ensures Lines(decode, s, lines).failure != BUFFER_EXCEEDED
    decreases |lines|
  {
    if lines != [] && s.failure == "" {
      LineReasons(decode, s, lines[0]);
      LinesReasons(decode, Line(decode, s, lines[0]), lines[1..]);
    }
  }

  /** The parser reads a divided stream as the stream itself, in fields, callbacks, failure and leftover, if
      and only if the division fits. */
  lemma DivisionMattersExactlyWhen(decode: Decoder, chunks: seq<string>)
    ensures Same(FeedAll(decode, START, chunks), Meaning(decode, Concat(chunks))) <==> Fits(decode, chunks)
  {
    if Fits(decode, chunks) {
      FittingIsMeaning(decode, chunks);
    } else {
      NotFittingExceeds(decode, chunks);
      LinesReasons(decode, START.state, Split(Concat(chunks)).items);
    }
  }

  /** A stream within the limit fits however it is divided. */
  lemma {:induction false} ShortFits(decode: Decoder, chunks: seq<string>)
    requires |Concat(chunks)| <= MAX_BYTES
    ensures Fits(decode, chunks)
  {
    if chunks != [] {
      var n := |chunks| - 1;
      ShortFits(decode, chunks[..n]);
      FittingIsMeaning(decode, chunks[..n]);
      SplitShrinks(Concat(chunks[..n]));
    }
  }

  lemma FeedOnce(decode: Decoder, stream: string)
    ensures FeedAll(decode, START, [stream]) == Fed(decode, START, stream) && Concat([stream]) == stream
  {
    assert [stream][..0] == [];
  }

  /** Chunking independence: any two fitting divisions of any stream lead to the same result fields, callback
      sequence and failure. */
  lemma ChunkingIrrelevant(decode: Decoder, chunks: seq<string>, others: seq<string>)
    requires Concat(chunks) == Concat(others) && Fits(decode, chunks) && Fits(decode, others)
    ensures Same(FeedAll(decode, START, chunks), FeedAll(decode, START, others))
  {
    FittingIsMeaning(decode, chunks);
    FittingIsMeaning(decode, others);
  }

  /** A stream within the limit, divided in any way, is read as it is when it arrives at once. */
  lemma ShortStreams(decode: Decoder, chunks: seq<string>)
    requires |Concat(chunks)| <= MAX_BYTES
    ensures Same(FeedAll(decode, START, chunks), Fed(decode, START, Concat(chunks)))
  {
    FeedOnce(decode, Concat(chunks));
    ShortFits(decode, chunks);
    ShortFits(decode, [Concat(chunks)]);
    ChunkingIrrelevant(decode, chunks, [Concat(chunks)]);
  }

  /** The verdict of Finish does not depend on the division either. */
  lemma FinishIgnoresChunking(decode: Decoder, chunks: seq<string>, others: seq<string>)
    requires Concat(chunks) == Concat(others) && Fits(decode, chunks) && Fits(decode, others)
    ensures Finished(decode, FeedAll(decode, START, chunks)) == Finished(decode, FeedAll(decode, START, others))
  {
    ChunkingIrrelevant(decode, chunks, others);
    SameFinish(decode, FeedAll(decode, START, chunks), FeedAll(decode, START, others));
  }

  lemma SameFinish(decode: Decoder, p: Parser, q: Parser)
    requires Same(p, q)
    ensures Finished(decode, p) == Finished(decode, q)
  {
  }

  // ----- the buffer limit

  function Repeat<T>(x: T, n: nat): (xs: seq<T>)
    ensures |xs| == n && forall i | 0 <= i < n :: xs[i] == x
  {
    seq(n, _ => x)
  }

  lemma {:induction false} SplitBlank(n: nat)
    ensures Split(Repeat('\n', n)) == Outcome(Repeat("", n), "", false)
  {
    LineSound();
    var buffer := Repeat('\n', n);
    if n == 0 {
      assert buffer == "";
    } else {
      SplitBlank(n - 1);
      assert buffer[1..] == Repeat('\n', n - 1) && buffer[..0] == "";
      assert Repeat("", n) == [""] + Repeat("", n - 1);
    }
  }

  lemma {:induction false} HandleBlank(decode: Decoder, n: nat)
    ensures Lines(decode, START.state, Repeat("", n)) == START.state
  {
    if n > 0 {
      HandleBlank(decode, n - 1);
      assert Repeat("", n)[1..] == Repeat("", n - 1);
      assert Line(decode, START.state, "") == START.state;
    }
  }

  /** The same stream can fit in pieces and not at once. */
  lemma LimitMatters(decode: Decoder)
    ensures MAX_BYTES == 16777216
    ensures var a, b := Repeat('\n', MAX_BYTES), Repeat('\n', 1);
            && Fits(decode, [a, b]) && FeedAll(decode, START, [a, b]).state.failure == ""
            && !Fits(decode, [a + b]) && FeedAll(decode, START, [a + b]).state.failure == BUFFER_EXCEEDED
  {
    var a, b := Repeat('\n', MAX_BYTES), Repeat('\n', 1);
    FedBlank(decode, MAX_BYTES);
    FedBlank(decode, 1);
    FeedOnce(decode, a);
    FeedOnce(decode, a + b);
    assert [a, b][..1] == [a] && [a][..0] == [] && [a + b][..0] == [];
  }

  lemma FedBlank(decode: Decoder, n: nat)
    requires n <= MAX_BYTES
    ensures Fed(decode, START, Repeat('\n', n)) == START
  {
    SplitBlank(n);
    HandleBlank(decode, n);
    assert "" + Repeat('\n', n) == Repeat('\n', n);
  }

  // ----- terminal safety

  predicate IsFinal(d: Dispatch) {
    d.Decoded? && (d.event.FinalEvent? || d.event.AgentFinal?) && d.event.final.Answer?
  }

  predicate IsStop(d: Dispatch) {
    d.Decoded? && d.event.Choice? && d.event.finish == Reason("stop")
  }

  function DeltaText(d: Dispatch): string {
    if d.Decoded? && (d.event.AgentDelta? || d.event.Choice?) then d.event.text else ""
  }

  function Deltas(seen: seq<Dispatch>): string {
    if seen == [] then "" else Deltas(seen[..|seen| - 1]) + DeltaText(seen[|seen| - 1])
  }

  function Previewed(callbacks: seq<Callback>): string {
    if callbacks == [] then ""
    else
      var last := callbacks[|callbacks| - 1];
      Previewed(callbacks[..|callbacks| - 1]) + if last.OnDelta? then last.text else ""
  }

  lemma PreviewAppend(cs: seq<Callback>, c: Callback)
    ensures Previewed(cs + [c]) == Previewed(cs) + if c.OnDelta? then c.text else ""
  {
    assert (cs + [c])[..|cs|] == cs;
  }

  predicate HasFinal(seen: seq<Dispatch>) {
    seen != [] && (IsFinal(seen[|seen| - 1]) || HasFinal(seen[..|seen| - 1]))
  }

  predicate HasStop(seen: seq<Dispatch>) {
    seen != [] && (IsStop(seen[|seen| - 1]) || HasStop(seen[..|seen| - 1]))
  }

  /** Every final answer seen is this one. */
  predicate FinalsAre(seen: seq<Dispatch>, text: string, metadata: string) {
    seen != [] ==>
      var last := seen[|seen| - 1];
      && FinalsAre(seen[..|seen| - 1], text, metadata)
      && (IsFinal(last) ==> last.event.final.text == text && last.event.final.metadata.raw == metadata)
  }

  lemma SeenAppend(seen: seq<Dispatch>, d: Dispatch)
    ensures HasFinal(seen + [d]) <==> HasFinal(seen) || IsFinal(d)
    ensures HasStop(seen + [d]) <==> HasStop(seen) || IsStop(d)
    ensures Deltas(seen + [d]) == Deltas(seen) + DeltaText(d)
    ensures forall t, m :: FinalsAre(seen + [d], t, m) <==>
                           FinalsAre(seen, t, m) && (IsFinal(d) ==> d.event.final.text == t && d.event.final.metadata.raw == m)
  {
    assert (seen + [d])[..|seen|] == seen;
  }

  lemma {:induction false} NoFinalNoConstraint(seen: seq<Dispatch>, text: string, metadata: string)
    requires !HasFinal(seen)
    ensures FinalsAre(seen, text, metadata)
  {
    if seen != [] {
      NoFinalNoConstraint(seen[..|seen| - 1], text, metadata);
    }
  }

  predicate MarkersInv(s: State) {
    && (s.done ==> s.seen != [] && s.seen[|s.seen| - 1] == DoneMarker && (s.final || s.stopped))
    && (forall i | 0 <= i < |s.seen| && s.seen[i] == DoneMarker :: s.done && i == |s.seen| - 1)
  }

  predicate FinalsInv(s: State) {
    && (s.final <==> HasFinal(s.seen)) && FinalsAre(s.seen, s.finalText, s.finalMetadata)
    && (s.stopped <==> HasStop(s.seen))
  }

  predicate TextInv(s: State) {
    && Previewed(s.callbacks) == Deltas(s.seen)
    && (if s.final then s.result.text == s.finalText && s.result.metadata == s.finalMetadata
        else s.result.text == Deltas(s.seen))
    && |s.result.text| <= MAX_BYTES
  }

  predicate Inv(s: State) {
    s.failure == "" ==> MarkersInv(s) && FinalsInv(s) && TextInv(s)
  }

  /** Same line state, end marker and history of events. */
  predicate KeepsLineState(s: State, s': State) {
    s'.data == s.data && s'.name == s.name && s'.done == s.done && s'.seen == s.seen
  }

  lemma ChoiceKeeps(s: State, text: string, finish: FinishReason)
    ensures KeepsLineState(s, OnChoice(s, text, finish))
  {
  }

  lemma FinalKeeps(s: State, f: Final)
    ensures KeepsLineState(s, OnFinal(s, f))
  {
  }

  lemma EventKeeps(s: State, e: Event)
    ensures KeepsLineState(s, OnEvent(s, e))
  {
    match e {
      case AgentDelta(n, text) => ChoiceKeeps(Call(s, OnAgentEvent(n)), text, NoReason);
      case Choice(text, finish) => ChoiceKeeps(s, text, finish);
      case AgentFinal(n, f) => FinalKeeps(Call(s, OnAgentEvent(n)).(result := s.result.(agentEvent := n)), f);
      case FinalEvent(f) => FinalKeeps(s, f);
      case _ =>
    }
  }

  /** The state in which an event is handled. */
  function Dispatched(s: State, d: Dispatch): State {
    s.(data := "", name := "", seen := s.seen + [d])
  }

  lemma MarkersStep(s: State, e: Event)
    requires s.failure == "" && Inv(s) && !s.done
    ensures MarkersInv(OnEvent(Dispatched(s, Decoded(e)), e))
  {
    EventKeeps(Dispatched(s, Decoded(e)), e);
  }

  /** What the handling of a final answer and of a choice leaves, when it does not fail. */
  lemma FinalEffect(s: State, f: Final)
    requires s.failure == ""
    ensures var s' := OnFinal(s, f);
            s'.failure == "" ==>
              && f.Answer? && s'.final && s'.finalText == f.text == s'.result.text
              && s'.finalMetadata == f.metadata.raw == s'.result.metadata
              && (s.final ==> s.finalText == f.text && s.result.metadata == f.metadata.raw)
              && |f.text| <= MAX_BYTES && s'.stopped == s.stopped && s'.seen == s.seen && s'.callbacks == s.callbacks
  {
  }

  lemma ChoiceEffect(s: State, text: string, finish: FinishReason)
    requires s.failure == "" && |s.result.text| <= MAX_BYTES
    ensures var s' := OnChoice(s, text, finish);
            s'.failure == "" ==>
              && s'.final == s.final && s'.finalText == s.finalText && s'.finalMetadata == s.finalMetadata && s'.seen == s.seen
              && s'.result.text == s.result.text + text && s'.result.metadata == s.result.metadata
              && |s'.result.text| <= MAX_BYTES && (s.final ==> text == "")
              && s'.stopped == (s.stopped || finish == Reason("stop"))
  {
  }

  lemma ChoicePreviewed(s: State, text: string, finish: FinishReason)
    requires s.failure == ""
    ensures var s' := OnChoice(s, text, finish);
            s'.failure == "" ==> Previewed(s'.callbacks) == Previewed(s.callbacks) + text
  {
    ChoiceCallbacks(s, text, finish);
    PreviewAppend(s.callbacks, OnDelta(text));
    assert Previewed(s.callbacks) + "" == Previewed(s.callbacks);
  }

  lemma ChoiceCallbacks(s: State, text: string, finish: FinishReason)
    requires s.failure == ""
    ensures var s' := OnChoice(s, text, finish);
            s'.failure == "" ==> s'.callbacks == if text == "" then s.callbacks else s.callbacks + [OnDelta(text)]
  {
  }

  lemma EventInv(s: State, e: Event)
    requires s.failure == "" && Inv(s) && !s.done
    ensures var s' := OnEvent(Dispatched(s, Decoded(e)), e); s'.failure == "" ==> FinalsInv(s') && TextInv(s')
  {
    var d, s1 := Decoded(e), Dispatched(s, Decoded(e));
    match e {
      case AgentProgress(n, text) => ProgressInv(s, n, text);
      case AgentDelta(n, text) =>
        PreviewAppend(s.callbacks, OnAgentEvent(n));
        ChoiceInv(s, d, Call(s1, OnAgentEvent(n)), text, NoReason);
      case Choice(text, finish) => ChoiceInv(s, d, s1, text, finish);
      case AgentFinal(n, f) =>
        PreviewAppend(s.callbacks, OnAgentEvent(n));
        FinalInv(s, d, Call(s1, OnAgentEvent(n)).(result := s1.result.(agentEvent := n)), f);
      case FinalEvent(f) => FinalInv(s, d, s1, f);
      case _ => QuietInv(s, e, OnEvent(s1, e));
    }
  }

  /** Events that only fail, or mean nothing. */
  lemma QuietInv(s: State, e: Event, s': State)
    requires s.failure == "" && FinalsInv(s) && TextInv(s) && s' == OnEvent(Dispatched(s, Decoded(e)), e)
    requires !e.AgentProgress? && !e.AgentDelta? && !e.Choice? && !e.AgentFinal? && !e.FinalEvent?
    ensures s'.failure == "" ==> FinalsInv(s') && TextInv(s')
  {
    if s'.failure == "" {
      SeenAppend(s.seen, Decoded(e));
      assert s' == Dispatched(s, Decoded(e));
    }
  }

  lemma ProgressInv(s: State, n: string, text: string)
    requires s.failure == "" && FinalsInv(s) && TextInv(s)
    ensures var e := AgentProgress(n, text);
            var s' := OnEvent(Dispatched(s, Decoded(e)), e); s'.failure == "" ==> FinalsInv(s') && TextInv(s')
  {
    var d := Decoded(AgentProgress(n, text));
    SeenAppend(s.seen, d);
    PreviewAppend(s.callbacks, OnAgentEvent(n));
    PreviewAppend(Call(Dispatched(s, d), OnAgentEvent(n)).callbacks, OnProgress(text));
  }

  lemma ChoiceInv(s: State, d: Dispatch, s1: State, text: string, finish: FinishReason)
    requires s.failure == "" && FinalsInv(s) && TextInv(s)
    requires d.Decoded?
    requires d.event == Choice(text, finish) || (d.event.AgentDelta? && d.event.text == text && finish == NoReason)
    requires s1.failure == "" && s1.final == s.final && s1.finalText == s.finalText && s1.finalMetadata == s.finalMetadata
    requires s1.stopped == s.stopped && s1.seen == s.seen + [d] && Previewed(s1.callbacks) == Previewed(s.callbacks)
    requires s1.result.text == s.result.text && s1.result.metadata == s.result.metadata
    ensures OnChoice(s1, text, finish).failure == "" ==>
              FinalsInv(OnChoice(s1, text, finish)) && TextInv(OnChoice(s1, text, finish))
  {
    SeenAppend(s.seen, d);
    ChoiceEffect(s1, text, finish);
    ChoicePreviewed(s1, text, finish);
    assert s.result.text + "" == s.result.text;
  }

  lemma FinalInv(s: State, d: Dispatch, s1: State, f: Final)
    requires s.failure == "" && FinalsInv(s) && TextInv(s)
    requires d.Decoded? && (d.event == FinalEvent(f) || (d.event.AgentFinal? && d.event.final == f))
    requires s1.failure == "" && s1.final == s.final && s1.finalText == s.finalText && s1.finalMetadata == s.finalMetadata
    requires s1.stopped == s.stopped && s1.seen == s.seen + [d] && Previewed(s1.callbacks) == Previewed(s.callbacks)
    requires s1.result.text == s.result.text && s1.result.metadata == s.result.metadata
    ensures OnFinal(s1, f).failure == "" ==> FinalsInv(OnFinal(s1, f)) && TextInv(OnFinal(s1, f))
  {
    SeenAppend(s.seen, d);
    FinalEffect(s1, f);
    if OnFinal(s1, f).failure == "" && !s.final {
      NoFinalNoConstraint(s.seen, f.text, f.metadata.raw);
    }
  }

  lemma ProcessInv(decode: Decoder, s: State)
    requires Inv(s) && s.failure == ""
    ensures Inv(ProcessEvent(decode, s))
  {
    if s.data != "" && !s.done {
      if Trim(s.data) != "[DONE]" {
        var e := decode(s.name, Trim(s.data));
        MarkersStep(s, e);
        EventInv(s, e);
      } else if s.final || s.stopped {
        SeenAppend(s.seen, DoneMarker);
      }
    }
  }

  lemma {:induction false} LinesInv(decode: Decoder, s: State, lines: seq<string>)
    requires Inv(s)
    ensures Inv(Lines(decode, s, lines))
    decreases |lines|
  {
    if lines != [] && s.failure == "" {
      LineInv(decode, s, lines[0], Line(decode, s, lines[0]));
      LinesInv(decode, Line(decode, s, lines[0]), lines[1..]);
      LinesOne(decode, s, lines);
    }
  }

  lemma LinesOne(decode: Decoder, s: State, lines: seq<string>)
    requires lines != [] && s.failure == ""
    ensures Lines(decode, s, lines) == Lines(decode, Line(decode, s, lines[0]), lines[1..])
  {
  }

  lemma LineInv(decode: Decoder, s: State, raw: string, s': State)
    requires Inv(s) && s.failure == "" && s' == Line(decode, s, raw)
    ensures Inv(s')
  {
    if raw == "" || raw == "\r" {
      ProcessInv(decode, s);
    } else if s'.failure == "" {
      LineCollects(decode, s, raw);
      SameEvents(s, s');
    }
  }

  lemma LineCollects(decode: Decoder, s: State, raw: string)
    requires raw != "" && raw != "\r" && Line(decode, s, raw).failure == ""
    ensures var s' := Line(decode, s, raw); s' == s.(data := s'.data, name := s'.name)
  {
  }

  /** A line that dispatches nothing changes only the event being collected. */
  lemma SameEvents(s: State, s': State)
    requires Inv(s) && s.failure == "" && s' == s.(data := s'.data, name := s'.name)
    ensures Inv(s')
  {
  }

  lemma FeedInv(decode: Decoder, p: Parser, chunk: string)
    requires Inv(p.state)
    ensures Inv(Fed(decode, p, chunk).state)
  {
    LinesInv(decode, p.state, Split(p.pending + chunk).items);
  }

  lemma {:induction false} FeedAllInv(decode: Decoder, chunks: seq<string>)
    ensures Inv(FeedAll(decode, START, chunks).state)
  {
    if chunks != [] {
      var n := |chunks| - 1;
      FeedAllInv(decode, chunks[..n]);
      FeedInv(decode, FeedAll(decode, START, chunks[..n]), chunks[n]);
    }
  }

  /** The end marker once and last, a final answer or a stop before it, and the text they agree on. */
  predicate Terminal(s: State) {
    var n := |s.seen| - 1;
    && n >= 0 && s.seen[n] == DoneMarker && (forall i | 0 <= i < n :: s.seen[i] != DoneMarker)
    && (exists i | 0 <= i < n :: IsFinal(s.seen[i]) || IsStop(s.seen[i]))
    && 0 < |s.result.text| <= MAX_BYTES
    && (forall i | 0 <= i < n && IsFinal(s.seen[i]) ::
          s.seen[i].event.final.text == s.result.text && s.seen[i].event.final.metadata.raw == s.result.metadata)
    && ((forall i | 0 <= i < n :: !IsFinal(s.seen[i])) ==> s.result.text == Deltas(s.seen) == Previewed(s.callbacks))
  }

  /** Terminal safety. Finish succeeds only if the end marker was dispatched, exactly once and last, and a
      final answer or a stop came before it. The text is then non-empty and within the limit: the one
      answer on which all final answers agree, or else the concatenation of all deltas, which is also
      what the preview callback received. */
  lemma SuccessIsTerminal(decode: Decoder, chunks: seq<string>)
    requires Finished(decode, FeedAll(decode, START, chunks)).failure == ""
    ensures Terminal(Finished(decode, FeedAll(decode, START, chunks)))
  {
    FeedAllInv(decode, chunks);
    FinishInv(decode, FeedAll(decode, START, chunks));
    TerminalFacts(Finished(decode, FeedAll(decode, START, chunks)));
  }

  lemma FinishInv(decode: Decoder, p: Parser)
    requires Inv(p.state) && Finished(decode, p).failure == ""
    ensures var s := Finished(decode, p);
            Inv(s) && s.done && (s.final || s.stopped) && s.result.text != ""
  {
    FeedInv(decode, p, "\n");
    var s := if p.pending == "" || p.state.failure != "" then p.state else Fed(decode, p, "\n").state;
    if s.failure == "" {
      ProcessInv(decode, s);
    }
  }

  lemma TerminalFacts(s: State)
    requires s.failure == "" && Inv(s) && s.done && (s.final || s.stopped) && s.result.text != ""
    ensures Terminal(s)
  {
    SeenForward(s.seen, s.finalText, s.finalMetadata);
    var n := |s.seen| - 1;
    assert !IsFinal(s.seen[n]) && !IsStop(s.seen[n]);
  }

  /** The recursive descriptions of the history, read forwards. */
  lemma {:induction false} SeenForward(seen: seq<Dispatch>, text: string, metadata: string)
    ensures HasFinal(seen) <==> exists i | 0 <= i < |seen| :: IsFinal(seen[i])
    ensures HasStop(seen) <==> exists i | 0 <= i < |seen| :: IsStop(seen[i])
    ensures FinalsAre(seen, text, metadata) ==>
              forall i | 0 <= i < |seen| && IsFinal(seen[i]) ::
                seen[i].event.final.text == text && seen[i].event.final.metadata.raw == metadata
  {
    if seen != [] {
      var n := |seen| - 1;
      SeenForward(seen[..n], text, metadata);
      assert forall i | 0 <= i < n :: seen[..n][i] == seen[i];
    }
  }

  /** Failure is absorbing: no later chunk and no Finish changes the first reason, dispatches anything or
      calls back, and the text, citations and metadata stay cleared. */
  lemma {:induction false} FailureAbsorbs(decode: Decoder, p: Parser, chunks: seq<string>)
    requires p.state.failure != "" && Clean(p.state)
    ensures FeedAll(decode, p, chunks) == p && Finished(decode, p) == p.state
    ensures p.state.result.text == "" && p.state.result.citations == "[]" && p.state.result.metadata == "{}"
  {
    if chunks != [] {
      FailureAbsorbs(decode, p, chunks[..|chunks| - 1]);
    }
  }

  /** Every failure met on the way clears the result. */
  lemma {:induction false} FailureClears(decode: Decoder, chunks: seq<string>)
    ensures Clean(FeedAll(decode, START, chunks).state)
  {
    if chunks != [] {
      var n := |chunks| - 1;
      FailureClears(decode, chunks[..n]);
      FeedClean(decode, FeedAll(decode, START, chunks[..n]), chunks[n]);
    }
  }

  // ----- the parser in the form of the source

  lemma SplitStep(buffer: string)
    ensures var end := Find(buffer, '\n');
            if end == |buffer| then Split(buffer) == Outcome([], buffer, false)
            else
              var later := Split(buffer[end + 1..]);
              Split(buffer) == Outcome([buffer[..end]] + later.items, later.rest, later.closed)
  {
    LineSound();
    var end := Find(buffer, '\n');
    if end < |buffer| {
      assert LineFront(buffer) == More(buffer[..end], end + 1);
    }
  }

  /** What is still to be done leads from `pending` and `s` to `all`. */
  predicate Heads(decode: Decoder, all: Parser, pending: string, s: State) {
    all == Parser(Split(pending).rest, Lines(decode, s, Split(pending).items))
  }

  lemma LinesFirst(decode: Decoder, s: State, line: string, rest: seq<string>)
    requires s.failure == ""
    ensures Lines(decode, s, [line] + rest) == Lines(decode, Line(decode, s, line), rest)
  {
    assert ([line] + rest)[1..] == rest;
  }

  lemma HeadsStep(decode: Decoder, all: Parser, pending: string, s: State, s': State)
    requires Heads(decode, all, pending, s) && s.failure == "" && Find(pending, '\n') < |pending|
    requires s' == Line(decode, s, pending[..Find(pending, '\n')])
    ensures Heads(decode, all, pending[Find(pending, '\n') + 1..], s')
    ensures s'.failure != "" ==> s' == all.state
  {
    SplitStep(pending);
    var later := Split(pending[Find(pending, '\n') + 1..]);
    LinesFirst(decode, s, pending[..Find(pending, '\n')], later.items);
    NothingAfterFailure(decode, s', later.items);
  }

  lemma NothingAfterFailure(decode: Decoder, s: State, lines: seq<string>)
    ensures s.failure != "" ==> Lines(decode, s, lines) == s
  {
  }

  lemma HeadsEnd(decode: Decoder, all: Parser, pending: string, s: State)
    requires Heads(decode, all, pending, s) && Find(pending, '\n') == |pending|
    ensures all == Parser(pending, s)
  {
    SplitStep(pending);
  }

  class HermesSseParser {
    const decode: Decoder
    var pending: string
    var data: string
    var name: string
    var failure: string
    var finalText: string
    var finalMetadata: string
    var final: bool
    var stopped: bool
    var done: bool
    var result: Result
    var callbacks: seq<Callback>
    var seen: seq<Dispatch>

    constructor (decode: Decoder)
      ensures this.decode == decode && View() == START
    {
      this.decode := decode;
      pending, data, name, failure, finalText, finalMetadata := "", "", "", "", "", "{}";
      final, stopped, done, result, callbacks, seen := false, false, false, EMPTY_RESULT, [], [];
    }

    function Fields(): State
      reads this
    {
      State(data, name, failure, finalText, finalMetadata, final, stopped, done, result, callbacks, seen)
    }

    function View(): Parser
      reads this
    {
      Parser(pending, Fields())
    }

    method FailWith(message: string)
      modifies this
      ensures View() == Parser(old(pending), Fail(old(Fields()), message))
    {
      if failure == "" {
        failure := message;
      }
      result := Clear(result);
    }

    method CallBack(c: Callback)
      modifies this`callbacks
      ensures callbacks == old(callbacks) + [c]
    {
      callbacks := callbacks + [c];
    }

    /** A final answer: a second one must agree with the first in text and metadata. */
    method HandleFinal(f: Final)
      modifies this
      ensures View() == Parser(old(pending), OnFinal(old(Fields()), f))
    {
      if f.TextMalformed? {
        FailWith(BAD_JSON);
        return;
      }
      if f.text == "" || |f.text| > MAX_BYTES {
        FailWith(BAD_FINAL_SIZE);
        return;
      }
      if f.MetadataMalformed? {
        FailWith(BAD_METADATA);
        return;
      }
      var m := f.metadata;
      if final && (finalText != f.text || result.metadata != m.raw) {
        FailWith(CONFLICT);
        return;
      }
      final, finalText, finalMetadata := true, f.text, m.raw;
      result := result.(text := f.text, metadata := m.raw);
      if m.audit.AuditMalformed? {
        FailWith(BAD_JSON);
        return;
      }
      if m.audit.Audited? {
        result := result.(finishReason := m.audit.finishReason);
      }
      result := result.(citations := m.citations);
    }

    /** A piece of text, a finish reason, or both. */
    method HandleChoice(text: string, finish: FinishReason)
      modifies this
      ensures View() == Parser(old(pending), OnChoice(old(Fields()), text, finish))
    {
      if text != "" {
        if final || stopped {
          FailWith(LATE_DELTA);
          return;
        }
        if |result.text| + |text| > MAX_BYTES {
          FailWith(TEXT_EXCEEDED);
          return;
        }
        result := result.(text := result.text + text);
        result := result.(chunks := result.chunks + 1);
        CallBack(OnDelta(text));
      }
      if finish.ReasonMalformed? {
        FailWith(BAD_FINISH);
        return;
      }
      if finish.Reason? {
        result := result.(finishReason := finish.name);
        if finish.name != "stop" {
          FailWith(NOT_STOP);
          return;
        }
        stopped := true;
      }
    }

    /** An agent event is shown to its callback before anything else is done with it. */
    method HandleAgent(e: Event)
      requires e.AgentError? || e.AgentProgress? || e.AgentDelta? || e.AgentFinal?
      modifies this
      ensures View() == Parser(old(pending), OnEvent(old(Fields()), e))
    {
      CallBack(OnAgentEvent(e.normalized));
      match e {
        case AgentError(_, cancelled, unconfirmed) =>
          result := result.(terminalStatus := if cancelled then "cancelled" else "failed");
          result := result.(unconfirmed := unconfirmed);
          FailWith(EXECUTION_ERROR);
        case AgentProgress(_, text) =>
          if final || stopped {
            FailWith(LATE_PROGRESS);
          } else {
            CallBack(OnProgress(text));
          }
        case AgentDelta(_, text) => HandleChoice(text, NoReason);
        case AgentFinal(n, f) =>
          result := result.(agentEvent := n);
          HandleFinal(f);
      }
    }

    method Handle(e: Event)
      modifies this
      ensures View() == Parser(old(pending), OnEvent(old(Fields()), e))
    {
      match e {
        case Malformed => FailWith(BAD_JSON);
        case NotObject => FailWith(NOT_OBJECT);
        case AgentInvalid => FailWith(BAD_AGENT);
        case ErrorEvent => FailWith(EXECUTION_ERROR);
        case FinalEvent(f) => HandleFinal(f);
        case NoChoices =>
        case ChoicesMalformed => FailWith(BAD_CHOICES);
        case EmptyChoices =>
        case ChoiceMalformed => FailWith(BAD_CHOICE);
        case Choice(text, finish) => HandleChoice(text, finish);
        case AgentError(_, _, _) => HandleAgent(e);
        case AgentProgress(_, _) => HandleAgent(e);
        case AgentDelta(_, _) => HandleAgent(e);
        case AgentFinal(_, _) => HandleAgent(e);
      }
    }

    method DispatchEvent() returns (ok: bool)
      requires failure == ""
      modifies this
      ensures View() == Parser(old(pending), ProcessEvent(decode, old(Fields())))
      ensures ok <==> failure == ""
    {
      if data == "" {
        name := "";
        return true;
      }
      var event, kind := Trim(data), name;
      data, name := "", "";
      if done {
        FailWith(AFTER_DONE);
      } else if event == "[DONE]" {
        seen := seen + [DoneMarker];
        if !final && !stopped {
          FailWith(NO_FINAL);
        } else {
          done := true;
        }
      } else {
        var e := decode(kind, event);
        seen := seen + [Decoded(e)];
        Handle(e);
      }
      return failure == "";
    }

    method HandleLine(raw: string) returns (ok: bool)
      requires failure == ""
      modifies this
      ensures View() == Parser(old(pending), Line(decode, old(Fields()), raw))
      ensures ok <==> failure == ""
    {
      var line := raw;
      if line != "" && line[|line| - 1] == '\r' {
        line := line[..|line| - 1];
      }
      if line == "" {
        ok := DispatchEvent();
        return;
      }
      if "event:" <= line {
        name := DropPrefix(line, 6);
      } else if "data:" <= line {
        var text := DropPrefix(line, 5);
        if |data| + |text| + 1 > MAX_BYTES {
          FailWith(EVENT_EXCEEDED);
          return false;
        }
        data := data + text + "\n";
      }
      return true;
    }

    method Feed(chunk: string) returns (ok: bool)
      modifies this
      ensures Same(View(), Fed(decode, old(View()), chunk))
      ensures ok <==> failure == ""
    {
      if failure != "" {
        FailWith(failure);
        return false;
      }
      if |pending| + |chunk| > MAX_BYTES {
        FailWith(BUFFER_EXCEEDED);
        return false;
      }
      pending := pending + chunk;
      ok := EatLines(Fed(decode, old(View()), chunk));
    }

    /** Eats complete lines from the buffer until none is left or one of them fails. */
    method EatLines(ghost all: Parser) returns (ok: bool)
      requires failure == "" && Heads(decode, all, pending, Fields())
      modifies this
      ensures Same(View(), all)
      ensures ok <==> failure == ""
    {
      var end := Find(pending, '\n');
      while end < |pending|
        invariant failure == "" && end == Find(pending, '\n')
        invariant Heads(decode, all, pending, Fields())
        decreases |pending|
      {
        ghost var before, s := pending, Fields();
        var line := pending[..end];
        pending := pending[end + 1..];
        ok := HandleLine(line);
        HeadsStep(decode, all, before, s, Fields());
        if !ok { return; }
        end := Find(pending, '\n');
      }
      HeadsEnd(decode, all, pending, Fields());
      return true;
    }

    method Finish() returns (ok: bool)
      modifies this
      ensures Fields() == Finished(decode, old(View()))
      ensures ok <==> failure == ""
    {
      if failure != "" {
        FailWith(failure);
        return false;
      }
      if pending != "" {
        ok := Feed("\n");
        if !ok {
          ghost var p := old(View());
          FeedFailureClears(decode, p, "\n");
          return;
        }
      }
      ok := DispatchEvent();
      if !ok { return; }
      if !done || (!final && !stopped) {
        FailWith(NO_TERMINAL);
        return false;
      }
      if result.text == "" {
        FailWith(EMPTY_ANSWER);
        return false;
      }
      return true;
    }
  }

  lemma FeedFailureClears(decode: Decoder, p: Parser, chunk: string)
    requires p.state.failure == "" && Fed(decode, p, chunk).state.failure != ""
    ensures var s := Fed(decode, p, chunk).state; Fail(s, s.failure) == s
  {
    LinesClean(decode, p.state, Split(p.pending + chunk).items);
  }
}
