/** Event streams as a gateway writes them, and exactly when the parser takes one as a success. */
module SseStreams {
  import IncrementalParsing
  import opened SseParser

  /** An event as it is sent: a name and one or more lines of data. */
  datatype Sent = Sent(name: string, data: seq<string>)

  // ----- writing

  /** Lines, each followed by a line break. */
  function Written(lines: seq<string>): string {
    if lines == [] then "" else lines[0] + "\n" + Written(lines[1..])
  }

  function DataLines(data: seq<string>): seq<string> {
    if data == [] then [] else ["data: " + data[0]] + DataLines(data[1..])
  }

  function EventLines(e: Sent): seq<string> {
    ["event: " + e.name] + DataLines(e.data) + [""]
  }

  function StreamLines(events: seq<Sent>): seq<string> {
    if events == [] then [] else EventLines(events[0]) + StreamLines(events[1..])
  }

  /** The end marker, on a line of its own. */
  const DONE_LINES := ["data: [DONE]", ""]

  /** The events in order and the end marker. */
  function Stream(events: seq<Sent>): string {
    Written(StreamLines(events) + DONE_LINES)
  }

  /** The lines of data with line breaks between them. */
  function Joined(data: seq<string>): string {
    if data == [] then "" else if |data| == 1 then data[0] else data[0] + "\n" + Joined(data[1..])
  }

  /** What a line of the stream can carry. */
  predicate Plain(text: string) {
    '\n' !in text && (text != "" ==> text[|text| - 1] != '\r')
  }

  /** An event that can be written: the last line of its data is not empty, all of it fits, and it is not the
      end marker. */
  predicate Sendable(e: Sent) {
    && Plain(e.name) && e.data != [] && (forall i | 0 <= i < |e.data| :: Plain(e.data[i]))
    && e.data[|e.data| - 1] != "" && |Joined(e.data)| < MAX_BYTES && Joined(e.data) != "[DONE]"
  }

  // ----- lines

  lemma FindAfter(line: string, rest: string)
    requires '\n' !in line
    ensures Find(line + "\n" + rest, '\n') == |line|
  {
    var all := line + "\n" + rest;
    assert all[|line|] == '\n';
    forall k | 0 <= k < |line| ensures all[k] != '\n' {
      assert all[k] == line[k] && line[k] in line;
    }
  }

  /** The lines come out as they were written and nothing is left over. */
  lemma {:induction false} SplitWritten(lines: seq<string>)
    requires forall i | 0 <= i < |lines| :: '\n' !in lines[i]
    ensures Split(Written(lines)) == IncrementalParsing.Outcome(lines, "", false)
    decreases |lines|
  {
    if lines == [] {
      SplitStep("");
    } else {
      var all := Written(lines);
      SplitWritten(lines[1..]);
      FindAfter(lines[0], Written(lines[1..]));
      SplitStep(all);
      assert all[..|lines[0]|] == lines[0] && all[|lines[0]| + 1..] == Written(lines[1..]);
      assert [lines[0]] + lines[1..] == lines;
    }
  }

  /** The value of a field: one space after the colon belongs to the syntax. */
  function Value(text: string): string {
    if text != "" && text[0] == ' ' then text[1..] else text
  }

  lemma DataField(decode: Decoder, s: State, text: string)
    requires text != "" ==> text[|text| - 1] != '\r'
    ensures Line(decode, s, "data:" + text) ==
              if |s.data| + |Value(text)| + 1 > MAX_BYTES then Fail(s, EVENT_EXCEEDED) else s.(data := s.data + Value(text) + "\n")
  {
    var line := "data:" + text;
    assert line[5..] == text && line[0] == 'd' && !("event:" <= line);
  }

  lemma NameField(decode: Decoder, s: State, text: string)
    requires text != "" ==> text[|text| - 1] != '\r'
    ensures Line(decode, s, "event:" + text) == s.(name := Value(text))
  {
    assert ("event:" + text)[6..] == text;
  }

  lemma ValueOfSpaced(text: string)
    requires text == "" || text[0] != ' '
    ensures Value(text) == text == Value(" " + text)
  {
    assert (" " + text)[1..] == text;
  }

  lemma SpaceAfterData(decode: Decoder, s: State, text: string)
    requires text == "" || (text[0] != ' ' && text[|text| - 1] != '\r')
    ensures Line(decode, s, "data: " + text) == Line(decode, s, "data:" + text)
  {
    assert "data: " + text == "data:" + (" " + text);
    ValueOfSpaced(text);
    DataField(decode, s, text);
    DataField(decode, s, " " + text);
  }

  lemma SpaceAfterEvent(decode: Decoder, s: State, text: string)
    requires text == "" || (text[0] != ' ' && text[|text| - 1] != '\r')
    ensures Line(decode, s, "event: " + text) == Line(decode, s, "event:" + text)
  {
    assert "event: " + text == "event:" + (" " + text);
    ValueOfSpaced(text);
    NameField(decode, s, text);
    NameField(decode, s, " " + text);
  }

  /** A line break may be written with a carriage return, and lines of other fields and comments mean nothing. */
  lemma OtherLines(decode: Decoder, s: State, raw: string)
    requires raw != "" ==> raw[|raw| - 1] != '\r'
    ensures Line(decode, s, raw + "\r") == Line(decode, s, raw)
    ensures raw != "" && !("event:" <= raw) && !("data:" <= raw) ==> Line(decode, s, raw) == s
  {
    assert (raw + "\r")[..|raw|] == raw;
  }

  lemma NameLine(decode: Decoder, s: State, name: string)
    requires Plain(name)
    ensures Line(decode, s, "event: " + name) == s.(name := name)
  {
    assert "event: " + name == "event:" + (" " + name) && (" " + name)[1..] == name;
    NameField(decode, s, " " + name);
  }

  lemma DataLine(decode: Decoder, s: State, text: string)
    requires Plain(text) && |s.data| + |text| + 1 <= MAX_BYTES
    ensures Line(decode, s, "data: " + text) == s.(data := s.data + text + "\n")
  {
    assert "data: " + text == "data:" + (" " + text) && (" " + text)[1..] == text;
    DataField(decode, s, " " + text);
  }

  lemma DataLinesMore(data: seq<string>, rest: seq<string>)
    requires data != []
    ensures DataLines(data) + rest == ["data: " + data[0]] + (DataLines(data[1..]) + rest)
  {
    Assoc(["data: " + data[0]], DataLines(data[1..]), rest);
  }

  lemma FirstDataLine(decode: Decoder, s: State, data: seq<string>, rest: seq<string>)
    requires s.failure == "" && data != [] && Plain(data[0]) && |s.data| + |data[0]| + 1 <= MAX_BYTES
    ensures Lines(decode, s, DataLines(data) + rest) ==
              Lines(decode, s.(data := s.data + data[0] + "\n"), DataLines(data[1..]) + rest)
  {
    var line, later := "data: " + data[0], DataLines(data[1..]) + rest;
    DataLinesMore(data, rest);
    LinesFirst(decode, s, line, later);
    DataLine(decode, s, data[0]);
  }

  lemma Assoc<T>(a: seq<T>, b: seq<T>, c: seq<T>)
    ensures a + b + c == a + (b + c)
  {
  }

  lemma JoinedMore(before: string, data: seq<string>)
    requires data != []
    ensures before + (Joined(data) + "\n") ==
              if |data| == 1 then before + data[0] + "\n" else before + data[0] + "\n" + (Joined(data[1..]) + "\n")
  {
    Assoc(before, data[0], "\n");
    if |data| > 1 {
      var later := Joined(data[1..]);
      Assoc(data[0] + "\n", later, "\n");
      Assoc(before, data[0] + "\n", later + "\n");
    }
  }

  lemma {:induction false} DataRead(decode: Decoder, s: State, data: seq<string>, rest: seq<string>)
    requires s.failure == "" && data != [] && forall i | 0 <= i < |data| :: Plain(data[i])
    requires |s.data| + |Joined(data)| + 1 <= MAX_BYTES
    ensures Lines(decode, s, DataLines(data) + rest) == Lines(decode, s.(data := s.data + (Joined(data) + "\n")), rest)
    decreases |data|
  {
    var s' := s.(data := s.data + data[0] + "\n");
    FirstDataLine(decode, s, data, rest);
    JoinedMore(s.data, data);
    if |data| == 1 {
      assert DataLines(data[1..]) + rest == rest;
    } else {
      DataRead(decode, s', data[1..], rest);
    }
  }

  lemma {:induction false} JoinedEnd(data: seq<string>)
    requires data != [] && (forall i | 0 <= i < |data| :: Plain(data[i])) && data[|data| - 1] != ""
    ensures Joined(data) != "" && Joined(data)[|Joined(data)| - 1] != '\n'
    decreases |data|
  {
    if |data| == 1 {
      assert data[0][|data[0]| - 1] in data[0];
    } else {
      JoinedEnd(data[1..]);
    }
  }

  lemma TrimOne(text: string)
    requires text != "" && text[|text| - 1] != '\n'
    ensures Trim(text + "\n") == text
  {
    assert (text + "\n")[..|text|] == text;
  }

  lemma EventLinesMore(e: Sent, rest: seq<string>)
    ensures EventLines(e) + rest == ["event: " + e.name] + (DataLines(e.data) + ([""] + rest))
  {
    Assoc(["event: " + e.name], DataLines(e.data), [""]);
    Assoc(["event: " + e.name], DataLines(e.data) + [""], rest);
    Assoc(DataLines(e.data), [""], rest);
  }

  /** The empty line dispatches what has been collected. */
  lemma Dispatches(decode: Decoder, s: State, data: string)
    requires !s.done && s.data == data + "\n" && data != "" && data[|data| - 1] != '\n' && data != "[DONE]"
    ensures var event := decode(s.name, data);
            Line(decode, s, "") == OnEvent(Dispatched(s, Decoded(event)), event)
  {
    TrimOne(data);
  }

  /** An event between its lines: collected from them and dispatched by the empty one. */
  lemma EventRead(decode: Decoder, s: State, e: Sent, rest: seq<string>)
    requires s.failure == "" && s.data == "" && !s.done && Sendable(e)
    ensures var event := decode(e.name, Joined(e.data));
            Lines(decode, s, EventLines(e) + rest) == Lines(decode, OnEvent(Dispatched(s, Decoded(event)), event), rest)
  {
    var s1 := s.(name := e.name);
    var s2 := s1.(data := s1.data + (Joined(e.data) + "\n"));
    EventLinesMore(e, rest);
    NameLine(decode, s, e.name);
    LinesFirst(decode, s, "event: " + e.name, DataLines(e.data) + ([""] + rest));
    DataRead(decode, s1, e.data, [""] + rest);
    LinesFirst(decode, s2, "", rest);
    JoinedEnd(e.data);
    assert s2.data == Joined(e.data) + "\n";
    Dispatches(decode, s2, Joined(e.data));
  }

  /** Lines that arrive in any division that fits are handled in order. */
  lemma WrittenRead(decode: Decoder, lines: seq<string>, chunks: seq<string>)
    requires forall i | 0 <= i < |lines| :: '\n' !in lines[i]
    requires IncrementalParsing.Concat(chunks) == Written(lines) && Fits(decode, chunks)
    ensures Same(FeedAll(decode, START, chunks), Parser("", Lines(decode, START.state, lines)))
  {
    SplitWritten(lines);
    FittingIsMeaning(decode, chunks);
  }

  // ----- which sequences of events are a success

  /** Events that no stream survives. */
  predicate Bad(e: Event) {
    match e
    case NoChoices => false
    case EmptyChoices => false
    case AgentProgress(_, _) => false
    case AgentDelta(_, _) => false
    case Choice(_, finish) => finish != NoReason && finish != Reason("stop")
    case FinalEvent(f) => BadFinal(f)
    case AgentFinal(_, f) => BadFinal(f)
    case _ => true
  }

  predicate BadFinal(f: Final) {
    !f.Answer? || f.text == "" || |f.text| > MAX_BYTES || f.metadata.audit.AuditMalformed?
  }

  predicate Final(e: Event) {
    e.FinalEvent? || e.AgentFinal?
  }

  predicate Ends(e: Event) {
    Final(e) || (e.Choice? && e.finish == Reason("stop"))
  }

  /** Events that add to the answer or to the progress shown. */
  predicate Speaks(e: Event) {
    e.AgentProgress? || Said(e) != ""
  }

  function Said(e: Event): string {
    if e.AgentDelta? || e.Choice? then e.text else ""
  }

  function AllSaid(es: seq<Event>): string {
    if es == [] then "" else AllSaid(es[..|es| - 1]) + Said(es[|es| - 1])
  }

  predicate Agree(e: Event, e': Event) {
    Final(e) && e.final.Answer? && Final(e') && e'.final.Answer? ==>
      e.final.text == e'.final.text && e.final.metadata.raw == e'.final.metadata.raw
  }

  /** Nothing goes wrong: no bad event, nothing said after an end, no two different answers, not too much said. */
  predicate Faultless(es: seq<Event>) {
    NoneBad(es) && SilentAfterEnd(es) && AgreeAll(es) && |AllSaid(es)| <= MAX_BYTES
  }

  predicate NoneBad(es: seq<Event>) {
    forall i | 0 <= i < |es| :: !Bad(es[i])
  }

  predicate SilentAfterEnd(es: seq<Event>) {
    forall i, j | 0 <= i < j < |es| && Ends(es[i]) :: !Speaks(es[j])
  }

  predicate AgreeAll(es: seq<Event>) {
    forall i, j | 0 <= i < j < |es| :: Agree(es[i], es[j])
  }

  predicate HasAnswer(es: seq<Event>) {
    exists i | 0 <= i < |es| :: Final(es[i])
  }

  predicate HasEnd(es: seq<Event>) {
    exists i | 0 <= i < |es| :: Ends(es[i])
  }

  /** Every final answer has this text and this metadata. */
  predicate AnswersAre(es: seq<Event>, text: string, metadata: string) {
    forall i | 0 <= i < |es| && Final(es[i]) ::
      es[i].final.Answer? && es[i].final.text == text && es[i].final.metadata.raw == metadata
  }

  /** What the callbacks are given for an event. */
  function Shown(e: Event): seq<Callback> {
    match e
    case AgentProgress(n, text) => [OnAgentEvent(n), OnProgress(text)]
    case AgentDelta(n, text) => [OnAgentEvent(n)] + if text == "" then [] else [OnDelta(text)]
    case AgentFinal(n, _) => [OnAgentEvent(n)]
    case Choice(text, _) => if text == "" then [] else [OnDelta(text)]
    case _ => []
  }

  function AllShown(es: seq<Event>): seq<Callback> {
    if es == [] then [] else AllShown(es[..|es| - 1]) + Shown(es[|es| - 1])
  }

  /** The rest of what a success reports: how many pieces of text came, the last final event as the agent sent it,
      the citations of the last final answer, and the reason given last. */
  datatype Account = Account(chunks: nat, agentEvent: string, citations: string, finishReason: string)

  function Accounted(es: seq<Event>): Account {
    if es == [] then Account(0, "{}", "[]", "")
    else
      var e, before := es[|es| - 1], Accounted(es[..|es| - 1]);
      Account(
        if Said(e) != "" then before.chunks + 1 else before.chunks,
        if e.AgentFinal? then e.normalized else before.agentEvent,
        if Final(e) && e.final.Answer? then e.final.metadata.citations else before.citations,
        if Final(e) && e.final.Answer? && e.final.metadata.audit.Audited? then e.final.metadata.audit.finishReason
        else if e.Choice? && e.finish.Reason? then e.finish.name
        else before.finishReason)
  }

  predicate Accounts(s: State, es: seq<Event>) {
    Account(s.result.chunks, s.result.agentEvent, s.result.citations, s.result.finishReason) == Accounted(es)
  }

  lemma AccountStep(s: State, es: seq<Event>, e: Event)
    requires s.failure == "" && Accounts(s, es) && OnEvent(Dispatched(s, Decoded(e)), e).failure == ""
    ensures Accounts(OnEvent(Dispatched(s, Decoded(e)), e), es + [e])
  {
    var s1 := Dispatched(s, Decoded(e));
    assert (es + [e])[..|es|] == es;
    match e {
      case AgentDelta(n, text) => ChoiceAccount(Call(s1, OnAgentEvent(n)), text, NoReason);
      case Choice(text, finish) => ChoiceAccount(s1, text, finish);
      case FinalEvent(f) => FinalAccount(s1, f);
      case AgentFinal(n, f) => FinalAccount(Call(s1, OnAgentEvent(n)).(result := s1.result.(agentEvent := n)), f);
      case _ =>
    }
  }

  lemma FinalAccount(s: State, f: Final)
    requires s.failure == "" && OnFinal(s, f).failure == ""
    ensures var r := OnFinal(s, f).result;
            && f.Answer? && r.chunks == s.result.chunks && r.agentEvent == s.result.agentEvent && r.citations == f.metadata.citations
            && r.finishReason == if f.metadata.audit.Audited? then f.metadata.audit.finishReason else s.result.finishReason
  {
  }

  lemma ChoiceAccount(s: State, text: string, finish: FinishReason)
    requires s.failure == "" && OnChoice(s, text, finish).failure == ""
    ensures var r := OnChoice(s, text, finish).result;
            && r.chunks == (if text != "" then s.result.chunks + 1 else s.result.chunks)
            && r.agentEvent == s.result.agentEvent && r.citations == s.result.citations
            && r.finishReason == if finish.Reason? then finish.name else s.result.finishReason
  {
  }

  /** The state after a faultless sequence of events, in terms of the events. */
  ghost predicate Tells(s: State, es: seq<Event>) {
    && s.failure == "" && s.data == "" && !s.done
    && (s.final <==> HasAnswer(es)) && (s.final || s.stopped <==> HasEnd(es))
    && AnswersAre(es, s.result.text, s.result.metadata)
    && (s.final ==> s.result.text != "" && s.finalText == s.result.text)
    && (!s.final ==> s.result.text == AllSaid(es))
    && s.callbacks == AllShown(es)
  }

  predicate Next(es: seq<Event>, e: Event) {
    && !Bad(e)
    && (forall i | 0 <= i < |es| && Ends(es[i]) :: !Speaks(e))
    && (forall i | 0 <= i < |es| :: Agree(es[i], e))
    && |AllSaid(es)| + |Said(e)| <= MAX_BYTES
  }

  lemma SaidMore(es: seq<Event>, e: Event)
    ensures AllSaid(es + [e]) == AllSaid(es) + Said(e)
    ensures AllShown(es + [e]) == AllShown(es) + Shown(e)
  {
    assert (es + [e])[..|es|] == es;
  }

  lemma SilentMore(es: seq<Event>, e: Event)
    ensures SilentAfterEnd(es + [e]) <==> SilentAfterEnd(es) && forall i | 0 <= i < |es| && Ends(es[i]) :: !Speaks(e)
  {
    var all := es + [e];
    assert all[|es|] == e && forall i | 0 <= i < |es| :: all[i] == es[i];
  }

  lemma AgreeMore(es: seq<Event>, e: Event)
    ensures AgreeAll(es + [e]) <==> AgreeAll(es) && forall i | 0 <= i < |es| :: Agree(es[i], e)
  {
    var all := es + [e];
    assert all[|es|] == e && forall i | 0 <= i < |es| :: all[i] == es[i];
  }

  lemma GoodMore(es: seq<Event>, e: Event)
    ensures NoneBad(es + [e]) <==> NoneBad(es) && !Bad(e)
  {
    var all := es + [e];
    assert all[|es|] == e && forall i | 0 <= i < |es| :: all[i] == es[i];
  }

  lemma FaultlessMore(es: seq<Event>, e: Event)
    ensures Faultless(es + [e]) <==> Faultless(es) && Next(es, e)
  {
    SaidMore(es, e);
    GoodMore(es, e);
    SilentMore(es, e);
    AgreeMore(es, e);
  }

  lemma {:induction false} FaultlessPrefix(es: seq<Event>, more: seq<Event>)
    requires Faultless(es + more)
    ensures Faultless(es)
    decreases |more|
  {
    if more == [] {
      assert es + more == es;
    } else {
      var n := |more| - 1;
      assert es + more == (es + more[..n]) + [more[n]];
      FaultlessMore(es + more[..n], more[n]);
      FaultlessPrefix(es, more[..n]);
    }
  }

  lemma HasMore(es: seq<Event>, e: Event)
    ensures HasAnswer(es + [e]) <==> HasAnswer(es) || Final(e)
    ensures HasEnd(es + [e]) <==> HasEnd(es) || Ends(e)
  {
    var all := es + [e];
    assert all[|es|] == e && forall i | 0 <= i < |es| :: all[i] == es[i];
  }

  lemma AnswersMore(es: seq<Event>, e: Event, text: string, metadata: string)
    requires AnswersAre(es, text, metadata)
    requires Final(e) ==> e.final.Answer? && e.final.text == text && e.final.metadata.raw == metadata
    ensures AnswersAre(es + [e], text, metadata)
  {
  }

  lemma NoAnswers(es: seq<Event>, text: string, metadata: string)
    requires !HasAnswer(es)
    ensures AnswersAre(es, text, metadata)
  {
  }

  /** Appending an event to what is told, by what it does to the fields. */
  lemma TellsMore(s: State, s': State, es: seq<Event>, e: Event)
    requires Tells(s, es)
    requires s'.failure == "" && s'.data == "" && !s'.done && s'.callbacks == s.callbacks + Shown(e)
    requires s'.final == (s.final || Final(e)) && (s'.final || s'.stopped <==> s.final || s.stopped || Ends(e))
    requires Final(e) ==> e.final.Answer? && e.final.text == s'.finalText == s'.result.text && e.final.metadata.raw == s'.result.metadata
    requires s.final ==> s'.finalText == s.finalText && s'.result.text == s.result.text && s'.result.metadata == s.result.metadata
    requires s'.final ==> s'.result.text != ""
    requires !s'.final ==> s'.result.text == s.result.text + Said(e)
    ensures Tells(s', es + [e])
  {
    SaidMore(es, e);
    HasMore(es, e);
    if !s.final {
      NoAnswers(es, s'.result.text, s'.result.metadata);
    }
    AnswersMore(es, e, s'.result.text, s'.result.metadata);
  }

  /** The answer so far agrees with a new one exactly when all final answers do. */
  lemma FinalAgrees(s: State, es: seq<Event>, e: Event)
    requires Tells(s, es) && Final(e) && e.final.Answer?
    ensures (forall i | 0 <= i < |es| :: Agree(es[i], e)) <==>
              (s.final ==> e.final.text == s.finalText && e.final.metadata.raw == s.result.metadata)
  {
    if s.final {
      var i :| 0 <= i < |es| && Final(es[i]);
      assert Agree(es[i], e) <==> e.final.text == s.finalText && e.final.metadata.raw == s.result.metadata;
    }
  }

  /** A final answer is accepted when it is well formed and agrees with those before it. */
  lemma FinalStep(s: State, es: seq<Event>, e: Event, s1: State)
    requires Tells(s, es) && |AllSaid(es)| <= MAX_BYTES && Final(e)
    requires s1.failure == "" && s1.data == "" && !s1.done && s1.callbacks == s.callbacks + Shown(e)
    requires s1.final == s.final && s1.stopped == s.stopped && s1.finalText == s.finalText
    requires s1.result.text == s.result.text && s1.result.metadata == s.result.metadata
    ensures OnFinal(s1, e.final).failure == "" <==> Next(es, e)
    ensures Next(es, e) ==> Tells(OnFinal(s1, e.final), es + [e])
  {
    if BadFinal(e.final) {
      assert Bad(e) && !Next(es, e);
    } else {
      FinalAgrees(s, es, e);
      assert Next(es, e) <==> (s.final ==> e.final.text == s.finalText && e.final.metadata.raw == s.result.metadata);
      if Next(es, e) {
        TellsMore(s, OnFinal(s1, e.final), es, e);
      }
    }
  }

  lemma MaySpeak(s: State, es: seq<Event>, e: Event)
    requires Tells(s, es) && (e.AgentDelta? || e.Choice?)
    ensures (forall i | 0 <= i < |es| && Ends(es[i]) :: !Speaks(e)) <==> e.text == "" || (!s.final && !s.stopped)
    ensures forall i | 0 <= i < |es| :: Agree(es[i], e)
  {
    if s.final || s.stopped {
      var i :| 0 <= i < |es| && Ends(es[i]);
    }
  }

  /** Text is accepted before any end and within the limit. */
  lemma ChoiceStep(s: State, es: seq<Event>, e: Event, s1: State, finish: FinishReason)
    requires Tells(s, es) && |AllSaid(es)| <= MAX_BYTES && (e.AgentDelta? || e.Choice?)
    requires finish == if e.Choice? then e.finish else NoReason
    requires s1.failure == "" && s1.data == "" && !s1.done
    requires s1.callbacks + (if e.text == "" then [] else [OnDelta(e.text)]) == s.callbacks + Shown(e)
    requires s1.final == s.final && s1.stopped == s.stopped && s1.finalText == s.finalText && s1.result == s.result
    ensures OnChoice(s1, e.text, finish).failure == "" <==> Next(es, e)
    ensures Next(es, e) ==> Tells(OnChoice(s1, e.text, finish), es + [e])
  {
    MaySpeak(s, es, e);
    if Next(es, e) {
      assert s.result.text + "" == s.result.text;
      TellsMore(s, OnChoice(s1, e.text, finish), es, e);
    }
  }

  /** Every other event. */
  lemma OtherStep(s: State, es: seq<Event>, e: Event, s': State)
    requires Tells(s, es) && |AllSaid(es)| <= MAX_BYTES && !Final(e) && !e.AgentDelta? && !e.Choice?
    requires s' == OnEvent(Dispatched(s, Decoded(e)), e)
    ensures s'.failure == "" <==> Next(es, e)
    ensures Next(es, e) ==> Tells(s', es + [e])
  {
    if s.final || s.stopped {
      var i :| 0 <= i < |es| && Ends(es[i]);
    }
    if Next(es, e) {
      assert s.result.text + "" == s.result.text;
      assert s.callbacks + [] == s.callbacks;
      TellsMore(s, s', es, e);
    }
  }

  lemma EventStep(s: State, es: seq<Event>, e: Event)
    requires Tells(s, es) && |AllSaid(es)| <= MAX_BYTES
    ensures var s' := OnEvent(Dispatched(s, Decoded(e)), e);
            && (s'.failure == "" <==> Next(es, e))
            && (Next(es, e) ==> Tells(s', es + [e]))
  {
    var s1 := Dispatched(s, Decoded(e));
    match e {
      case FinalEvent(f) => assert s.callbacks + [] == s.callbacks; FinalStep(s, es, e, s1);
      case AgentFinal(n, f) => FinalStep(s, es, e, Call(s1, OnAgentEvent(n)).(result := s1.result.(agentEvent := n)));
      case AgentDelta(n, text) => DeltaStep(s, es, e, n);
      case Choice(text, finish) => ChoiceStep(s, es, e, s1, finish);
      case _ => OtherStep(s, es, e, OnEvent(s1, e));
    }
  }

  lemma DeltaStep(s: State, es: seq<Event>, e: Event, n: string)
    requires Tells(s, es) && |AllSaid(es)| <= MAX_BYTES && e.AgentDelta? && e.normalized == n
    ensures var s' := OnEvent(Dispatched(s, Decoded(e)), e);
            && (s'.failure == "" <==> Next(es, e))
            && (Next(es, e) ==> Tells(s', es + [e]))
  {
    var s1 := Call(Dispatched(s, Decoded(e)), OnAgentEvent(n));
    assert s.callbacks + [OnAgentEvent(n)] + [] == s.callbacks + ([OnAgentEvent(n)] + []);
    assert s.callbacks + [OnAgentEvent(n)] + [OnDelta(e.text)] == s.callbacks + ([OnAgentEvent(n)] + [OnDelta(e.text)]);
    ChoiceStep(s, es, e, s1, NoReason);
  }

  // ----- whole streams

  ghost predicate Follows(s: State, es: seq<Event>) {
    Tells(s, es) && Faultless(es) && Accounts(s, es)
  }

  function Meant(decode: Decoder, e: Sent): Event {
    decode(e.name, Joined(e.data))
  }

  function MeantAll(decode: Decoder, events: seq<Sent>): seq<Event> {
    if events == [] then [] else [Meant(decode, events[0])] + MeantAll(decode, events[1..])
  }

  lemma FirstRead(decode: Decoder, s: State, es: seq<Event>, sent: Sent, later: seq<string>)
    requires Follows(s, es) && Sendable(sent)
    ensures var e := Meant(decode, sent);
            var s' := OnEvent(Dispatched(s, Decoded(e)), e);
            && Lines(decode, s, EventLines(sent) + later) == Lines(decode, s', later)
            && (s'.failure == "" ==> Follows(s', es + [e]))
            && (s'.failure != "" ==> !Faultless(es + [e]))
  {
    EventRead(decode, s, sent, later);
    FollowsMore(s, es, Meant(decode, sent));
  }

  lemma FollowsMore(s: State, es: seq<Event>, e: Event)
    requires Follows(s, es)
    ensures var s' := OnEvent(Dispatched(s, Decoded(e)), e);
            if s'.failure == "" then Follows(s', es + [e]) else !Faultless(es + [e])
  {
    EventStep(s, es, e);
    FaultlessMore(es, e);
    if OnEvent(Dispatched(s, Decoded(e)), e).failure == "" {
      AccountStep(s, es, e);
    }
  }

  lemma NeverFaultless(es: seq<Event>, more: seq<Event>)
    requires !Faultless(es)
    ensures !Faultless(es + more)
  {
    if Faultless(es + more) {
      FaultlessPrefix(es, more);
    }
  }

  lemma SameAfterFailure(decode: Decoder, s: State, some: seq<string>, others: seq<string>)
    requires s.failure != ""
    ensures Lines(decode, s, some) == Lines(decode, s, others)
  {
    LinesFailed(decode, s, some);
    LinesFailed(decode, s, others);
  }

  lemma FirstOf(decode: Decoder, es: seq<Event>, events: seq<Sent>, rest: seq<string>)
    requires events != []
    ensures StreamLines(events) + rest == EventLines(events[0]) + (StreamLines(events[1..]) + rest)
    ensures es + MeantAll(decode, events) == es + [Meant(decode, events[0])] + MeantAll(decode, events[1..])
  {
    Assoc(EventLines(events[0]), StreamLines(events[1..]), rest);
    Assoc(es, [Meant(decode, events[0])], MeantAll(decode, events[1..]));
  }

  /** Reading the events of a stream, after those of `es`: up to the end when all are faultless, else to a failure. */
  lemma {:induction false} EventsRead(decode: Decoder, s: State, es: seq<Event>, events: seq<Sent>, rest: seq<string>)
    returns (t: State)
    requires Follows(s, es) && forall i | 0 <= i < |events| :: Sendable(events[i])
    ensures Lines(decode, s, StreamLines(events) + rest) == Lines(decode, t, rest)
    ensures t.failure == "" ==> Follows(t, es + MeantAll(decode, events))
    ensures t.failure != "" ==> !Faultless(es + MeantAll(decode, events))
    decreases |events|
  {
    if events == [] {
      assert es + MeantAll(decode, events) == es && StreamLines(events) + rest == rest;
      return s;
    }
    var e := Meant(decode, events[0]);
    var s' := OnEvent(Dispatched(s, Decoded(e)), e);
    var later := StreamLines(events[1..]) + rest;
    FirstOf(decode, es, events, rest);
    FirstRead(decode, s, es, events[0], later);
    if s'.failure == "" {
      t := EventsRead(decode, s', es + [e], events[1..], rest);
    } else {
      NeverFaultless(es + [e], MeantAll(decode, events[1..]));
      SameAfterFailure(decode, s', later, rest);
      return s';
    }
  }

  /** A faultless sequence that comes to an end and has an answer. */
  predicate Success(es: seq<Event>) {
    Faultless(es) && HasEnd(es) && (HasAnswer(es) || AllSaid(es) != "")
  }

  lemma LinesPlain(events: seq<Sent>)
    requires forall i | 0 <= i < |events| :: Sendable(events[i])
    ensures forall i | 0 <= i < |StreamLines(events)| :: '\n' !in StreamLines(events)[i]
  {
    if events != [] {
      LinesPlain(events[1..]);
      DataPlain(events[0].data);
    }
  }

  lemma DataPlain(data: seq<string>)
    requires forall i | 0 <= i < |data| :: Plain(data[i])
    ensures forall i | 0 <= i < |DataLines(data)| :: '\n' !in DataLines(data)[i]
  {
    if data != [] {
      DataPlain(data[1..]);
    }
  }

  /** What is reported after a success. */
  predicate Reports(s: State, es: seq<Event>) {
    && s.callbacks == AllShown(es)
    && AnswersAre(es, s.result.text, s.result.metadata) && (!HasAnswer(es) ==> s.result.text == AllSaid(es))
    && Account(s.result.chunks, s.result.agentEvent, s.result.citations, s.result.finishReason) == Accounted(es)
  }

  lemma DoneIsPlain()
    ensures Plain("[DONE]") && Trim("[DONE]\n") == "[DONE]" && "data: [DONE]" == "data: " + "[DONE]"
  {
    assert "[DONE]" == ['[', 'D', 'O', 'N', 'E', ']'];
    TrimOne("[DONE]");
    assert "[DONE]" + "\n" == "[DONE]\n";
  }

  /** The lines of the end marker. */
  lemma DoneLines(decode: Decoder, t: State)
    requires t.failure == "" && t.data == "" && !t.done
    ensures var u := Lines(decode, t, DONE_LINES);
            if t.final || t.stopped then u == t.(name := "", done := true, seen := t.seen + [DoneMarker]) else u.failure != ""
  {
    var t1 := t.(data := "[DONE]\n");
    DoneCollected(decode, t);
    assert DONE_LINES == ["data: [DONE]"] + [""] && [""] == [""] + [];
    LinesFirst(decode, t, "data: [DONE]", [""]);
    LinesFirst(decode, t1, "", []);
    DoneDispatched(decode, t1);
  }

  lemma DoneCollected(decode: Decoder, t: State)
    requires t.data == ""
    ensures Line(decode, t, "data: [DONE]") == t.(data := "[DONE]\n")
  {
    DoneIsPlain();
    DataLine(decode, t, "[DONE]");
    assert t.data + "[DONE]" + "\n" == "[DONE]\n";
  }

  lemma DoneDispatched(decode: Decoder, t1: State)
    requires t1.failure == "" && t1.data == "[DONE]\n" && !t1.done
    ensures var u := Line(decode, t1, "");
            if t1.final || t1.stopped then u == t1.(data := "", name := "", done := true, seen := t1.seen + [DoneMarker])
            else u.failure != ""
  {
    DoneIsPlain();
  }

  /** Finish with nothing pending and no event being collected. */
  lemma FinishAfter(decode: Decoder, u: State, s: State)
    requires u.data == "" && s == Finished(decode, Parser("", u))
    ensures s.failure == "" <==> u.failure == "" && u.done && (u.final || u.stopped) && u.result.text != ""
    ensures s.failure == "" ==> s == u.(name := "")
  {
  }

  lemma FinishFailed(decode: Decoder, p: Parser)
    requires p.state.failure != ""
    ensures Finished(decode, p).failure != ""
  {
  }

  lemma Verdict(t: State, es: seq<Event>)
    requires Follows(t, es)
    ensures Success(es) <==> (t.final || t.stopped) && t.result.text != ""
    ensures Reports(t, es)
  {
  }

  lemma SameReports(t: State, s: State, es: seq<Event>)
    requires Reports(t, es) && s.callbacks == t.callbacks && s.result == t.result
    ensures Reports(s, es)
  {
  }

  /** The end marker after faultless events. */
  lemma DoneRead(decode: Decoder, t: State, es: seq<Event>, s: State)
    requires Follows(t, es)
    requires s == Finished(decode, Parser("", Lines(decode, t, DONE_LINES)))
    ensures s.failure == "" <==> Success(es)
    ensures s.failure == "" ==> Reports(s, es)
  {
    Verdict(t, es);
    DoneLines(decode, t);
    var u := Lines(decode, t, DONE_LINES);
    if t.final || t.stopped {
      FinishAfter(decode, u, s);
      if s.failure == "" {
        SameReports(t, s, es);
      }
    } else {
      FinishFailed(decode, Parser("", u));
    }
  }

  lemma StartTells()
    ensures Follows(START.state, [])
  {
  }

  lemma FromStart(decode: Decoder, events: seq<Sent>, es: seq<Event>, rest: seq<string>) returns (t: State)
    requires forall i | 0 <= i < |events| :: Sendable(events[i])
    requires es == MeantAll(decode, events)
    ensures Lines(decode, START.state, StreamLines(events) + rest) == Lines(decode, t, rest)
    ensures t.failure == "" ==> Follows(t, es)
    ensures t.failure != "" ==> !Faultless(es)
  {
    StartTells();
    t := EventsRead(decode, START.state, [], events, rest);
    assert [] + es == es;
  }

  lemma AfterEvents(decode: Decoder, t: State, es: seq<Event>, u: State, s: State)
    requires t.failure == "" ==> Follows(t, es)
    requires t.failure != "" ==> !Faultless(es)
    requires u == Lines(decode, t, DONE_LINES) && s == Finished(decode, Parser("", u))
    ensures s.failure == "" <==> Success(es)
    ensures s.failure == "" ==> Reports(s, es)
  {
    if t.failure == "" {
      DoneRead(decode, t, es, s);
    } else {
      LinesFailed(decode, t, DONE_LINES);
      FinishFailed(decode, Parser("", u));
    }
  }

  lemma AllLinesRead(decode: Decoder, events: seq<Sent>, u: State, s: State)
    requires forall i | 0 <= i < |events| :: Sendable(events[i])
    requires u == Lines(decode, START.state, StreamLines(events) + DONE_LINES) && s == Finished(decode, Parser("", u))
    ensures s.failure == "" <==> Success(MeantAll(decode, events))
    ensures s.failure == "" ==> Reports(s, MeantAll(decode, events))
  {
    var t := FromStart(decode, events, MeantAll(decode, events), DONE_LINES);
    AfterEvents(decode, t, MeantAll(decode, events), u, s);
  }

  /** The parser takes the stream of any events, divided in any way that fits, as a success if and only if nothing
      goes wrong in them, they come to an end and there is an answer. The text is then that of the final answers
      if there are any and otherwise all that was said, and the callbacks are given everything shown, in order. */
  lemma SucceedsExactlyWhen(decode: Decoder, events: seq<Sent>, chunks: seq<string>)
    requires forall i | 0 <= i < |events| :: Sendable(events[i])
    requires IncrementalParsing.Concat(chunks) == Stream(events) && Fits(decode, chunks)
    ensures var s := Finished(decode, FeedAll(decode, START, chunks));
            && (s.failure == "" <==> Success(MeantAll(decode, events)))
            && (s.failure == "" ==> Reports(s, MeantAll(decode, events)))
  {
    LinesPlain(events);
    WrittenRead(decode, StreamLines(events) + DONE_LINES, chunks);
    var u := FeedAll(decode, START, chunks).state;
    SameFinish(decode, FeedAll(decode, START, chunks), Parser("", u));
    AllLinesRead(decode, events, u, Finished(decode, FeedAll(decode, START, chunks)));
  }

  lemma FinalSucceeds(e: Event)
    requires Final(e) && !BadFinal(e.final)
    ensures Success([e])
    ensures Accounted([e]).citations == e.final.metadata.citations
    ensures e.final.metadata.audit.Audited? ==> Accounted([e]).finishReason == e.final.metadata.audit.finishReason
  {
    SaidMore([], e);
    assert [] + [e] == [e] && [e][..0] == [];
    assert Ends([e][0]) && Final([e][0]);
  }

  /** A final answer that is well formed is what the caller gets. */
  lemma FinalAnswerIsRead(decode: Decoder, name: string, data: string, text: string, m: Metadata, chunks: seq<string>)
    requires Sendable(Sent(name, [data])) && decode(name, data) == FinalEvent(Answer(text, m))
    requires 0 < |text| <= MAX_BYTES && !m.audit.AuditMalformed?
    requires IncrementalParsing.Concat(chunks) == Written(["event: " + name, "data: " + data, "", "data: [DONE]", ""])
    requires Fits(decode, chunks)
    ensures var s := Finished(decode, FeedAll(decode, START, chunks));
            && s.failure == "" && s.result.text == text && s.result.metadata == m.raw && s.result.citations == m.citations
            && (m.audit.Audited? ==> s.result.finishReason == m.audit.finishReason)
  {
    var sent := Sent(name, [data]);
    OneEvent(decode, sent);
    FinalSucceeds(FinalEvent(Answer(text, m)));
    SucceedsExactlyWhen(decode, [sent], chunks);
    FinalReported(Finished(decode, FeedAll(decode, START, chunks)), FinalEvent(Answer(text, m)));
  }

  lemma FinalReported(s: State, e: Event)
    requires Reports(s, [e]) && Final(e)
    ensures e.final.Answer? && s.result.text == e.final.text && s.result.metadata == e.final.metadata.raw
    ensures s.result.citations == Accounted([e]).citations && s.result.finishReason == Accounted([e]).finishReason
  {
    assert [e][0] == e;
  }

  lemma OneEvent(decode: Decoder, e: Sent)
    requires |e.data| == 1
    ensures MeantAll(decode, [e]) == [decode(e.name, e.data[0])]
    ensures StreamLines([e]) + DONE_LINES == ["event: " + e.name, "data: " + e.data[0], "", "data: [DONE]", ""]
  {
    assert DataLines(e.data) == ["data: " + e.data[0]];
  }

  /** Pieces of text, the last of them with the reason stop. */
  predicate Spoken(es: seq<Event>) {
    && es != [] && 0 < |AllSaid(es)| <= MAX_BYTES
    && (forall i | 0 <= i < |es| - 1 :: es[i].AgentDelta? || (es[i].Choice? && es[i].finish == NoReason))
    && es[|es| - 1].Choice? && es[|es| - 1].finish == Reason("stop")
  }

  lemma SpokenSucceeds(es: seq<Event>)
    requires Spoken(es)
    ensures Success(es) && Accounted(es).finishReason == "stop" && !HasAnswer(es)
  {
    assert Ends(es[|es| - 1]);
    assert forall i | 0 <= i < |es| :: !Final(es[i]) && !Bad(es[i]);
  }

  /** Text in pieces, ended by a stop, is what the caller gets. */
  lemma DeltasAreRead(decode: Decoder, events: seq<Sent>, chunks: seq<string>)
    requires (forall i | 0 <= i < |events| :: Sendable(events[i])) && Spoken(MeantAll(decode, events))
    requires IncrementalParsing.Concat(chunks) == Stream(events) && Fits(decode, chunks)
    ensures var s := Finished(decode, FeedAll(decode, START, chunks));
            && s.failure == "" && s.result.text == AllSaid(MeantAll(decode, events)) && s.result.finishReason == "stop"
  {
    SpokenSucceeds(MeantAll(decode, events));
    SucceedsExactlyWhen(decode, events, chunks);
  }

  lemma ErrorLines(decode: Decoder, events: seq<Sent>, bad: Sent, rest: seq<string>, u: State)
    requires (forall i | 0 <= i < |events| :: Sendable(events[i])) && Sendable(bad)
    requires Faultless(MeantAll(decode, events)) && Meant(decode, bad).AgentError?
    requires u == Lines(decode, START.state, StreamLines(events) + (EventLines(bad) + rest))
    ensures var e := Meant(decode, bad);
            && u.failure == EXECUTION_ERROR
            && u.result == EMPTY_RESULT.(terminalStatus := if e.cancelled then "cancelled" else "failed", unconfirmed := e.unconfirmed)
            && u.callbacks == AllShown(MeantAll(decode, events)) + [OnAgentEvent(e.normalized)]
  {
    var t := FromStart(decode, events, MeantAll(decode, events), EventLines(bad) + rest);
    ErrorEventRead(decode, t, bad, rest, u);
  }

  lemma ErrorEventRead(decode: Decoder, t: State, bad: Sent, rest: seq<string>, u: State)
    requires t.failure == "" && t.data == "" && !t.done && Sendable(bad) && Meant(decode, bad).AgentError?
    requires u == Lines(decode, t, EventLines(bad) + rest)
    ensures var e := Meant(decode, bad);
            && u.failure == EXECUTION_ERROR
            && u.result == EMPTY_RESULT.(terminalStatus := if e.cancelled then "cancelled" else "failed", unconfirmed := e.unconfirmed)
            && u.callbacks == t.callbacks + [OnAgentEvent(e.normalized)]
  {
    EventRead(decode, t, bad, rest);
    LinesFailed(decode, OnEvent(Dispatched(t, Decoded(Meant(decode, bad))), Meant(decode, bad)), rest);
  }

  lemma ErrorPlain(events: seq<Sent>, bad: Sent, rest: seq<string>)
    requires (forall i | 0 <= i < |events| :: Sendable(events[i])) && Sendable(bad)
    requires forall i | 0 <= i < |rest| :: '\n' !in rest[i]
    ensures var lines := StreamLines(events) + (EventLines(bad) + rest);
            forall i | 0 <= i < |lines| :: '\n' !in lines[i]
  {
    LinesPlain(events);
    LinesPlain([bad]);
    assert StreamLines([bad]) == EventLines(bad);
  }

  lemma FinishKeepsFailure(decode: Decoder, p: Parser)
    requires p.state.failure != "" && p.state.result == Clear(p.state.result)
    ensures Finished(decode, p) == p.state
  {
  }

  /** An error of the agent after a faultless beginning is reported as such, whatever follows, with how it ended
      and whether a native call was left unconfirmed. */
  lemma AgentErrorIsReported(decode: Decoder, events: seq<Sent>, bad: Sent, rest: seq<string>, chunks: seq<string>)
    requires (forall i | 0 <= i < |events| :: Sendable(events[i])) && Sendable(bad)
    requires Faultless(MeantAll(decode, events)) && Meant(decode, bad).AgentError?
    requires forall i | 0 <= i < |rest| :: '\n' !in rest[i]
    requires IncrementalParsing.Concat(chunks) == Written(StreamLines(events) + (EventLines(bad) + rest)) && Fits(decode, chunks)
    ensures var s, e := Finished(decode, FeedAll(decode, START, chunks)), Meant(decode, bad);
            && s.failure == "Pi gateway reported an execution error"
            && s.result == EMPTY_RESULT.(terminalStatus := if e.cancelled then "cancelled" else "failed", unconfirmed := e.unconfirmed)
            && s.callbacks == AllShown(MeantAll(decode, events)) + [OnAgentEvent(e.normalized)]
  {
    ErrorPlain(events, bad, rest);
    WrittenRead(decode, StreamLines(events) + (EventLines(bad) + rest), chunks);
    ErrorLines(decode, events, bad, rest, FeedAll(decode, START, chunks).state);
    FinishKeepsFailure(decode, FeedAll(decode, START, chunks));
  }

  // ----- how it ends

  lemma {:induction false} RestHasNoBreak(buffer: string)
    ensures '\n' !in Split(buffer).rest
    decreases |buffer|
  {
    SplitStep(buffer);
    if Find(buffer, '\n') < |buffer| {
      RestHasNoBreak(buffer[Find(buffer, '\n') + 1..]);
    }
  }

  lemma OneMoreLine(decode: Decoder, p: Parser)
    requires p.state.failure == "" && '\n' !in p.pending && |p.pending| < MAX_BYTES
    ensures Fed(decode, p, "\n") == Parser("", Line(decode, p.state, p.pending))
  {
    var line := p.pending;
    SplitWritten([line]);
    assert Written([line]) == line + "\n" by {
      assert [line][1..] == [];
    }
    LinesFirst(decode, p.state, line, []);
    assert [line] + [] == [line];
  }

  /** Dispatching leaves no event behind. */
  lemma DispatchedOnce(decode: Decoder, s: State)
    requires s.failure == ""
    ensures var s' := ProcessEvent(decode, s); s'.data == "" && s'.name == "" && Clean(s')
  {
    LineClean(decode, s, "");
    if s.data != "" && !s.done && Trim(s.data) != "[DONE]" {
      var e := decode(s.name, Trim(s.data));
      EventKeeps(s.(data := "", name := "", seen := s.seen + [Decoded(e)]), e);
    }
  }

  lemma ClosingLine(decode: Decoder, p: Parser)
    requires p.state.failure == "" && '\n' !in p.pending && |p.pending| < MAX_BYTES
    ensures Finished(decode, p) == Finished(decode, Fed(decode, p, "\n"))
  {
    OneMoreLine(decode, p);
    if p.pending == "" {
      assert Line(decode, p.state, "") == ProcessEvent(decode, p.state);
      DispatchedOnce(decode, p.state);
    }
  }

  /** Finish closes what is open: a last line break, or the blank line after the last event, may be missing. */
  lemma FinishClosesLine(decode: Decoder, chunks: seq<string>)
    requires Fits(decode, chunks + ["\n"])
    ensures Finished(decode, FeedAll(decode, START, chunks)) == Finished(decode, FeedAll(decode, START, chunks + ["\n"]))
  {
    var p := FeedAll(decode, START, chunks);
    assert (chunks + ["\n"])[..|chunks|] == chunks;
    if p.state.failure != "" {
      FailureClears(decode, chunks);
      SameFinish(decode, p, Fed(decode, p, "\n"));
    } else {
      FittingIsMeaning(decode, chunks);
      RestHasNoBreak(IncrementalParsing.Concat(chunks));
      ClosingLine(decode, p);
    }
  }

  /** What is reported for each event that no stream survives. */
  lemma FailuresAreNamed(s: State, e: Event)
    requires s.failure == ""
    ensures OnEvent(s, Malformed).failure == "invalid gateway SSE JSON or field type"
    ensures OnEvent(s, NotObject).failure == "gateway SSE event is not an object"
    ensures OnEvent(s, AgentInvalid).failure == "invalid AgentEvent"
    ensures e.AgentError? || e.ErrorEvent? ==> OnEvent(s, e).failure == "Pi gateway reported an execution error"
    ensures OnEvent(s, ChoicesMalformed).failure == "invalid gateway choices"
    ensures OnEvent(s, ChoiceMalformed).failure == "invalid gateway choice"
    ensures e.FinalEvent? && e.final.Answer? && e.final.text == "" ==> OnEvent(s, e).failure == "invalid gateway final answer size"
    ensures e.Choice? && e.text == "" && e.finish == ReasonMalformed ==>
              OnEvent(s, e).failure == "gateway finish_reason has invalid type"
    ensures e.Choice? && e.text == "" && e.finish.Reason? && e.finish.name != "stop" ==>
              OnEvent(s, e).failure == "gateway answer did not finish successfully"
  {
  }

  /** What Finish and the end marker report when there was no end or no answer. */
  lemma EndingsAreNamed(decode: Decoder, s: State)
    requires s.failure == "" && s.data == ""
    ensures !s.final && !s.stopped && !s.done ==>
              Line(decode, s.(data := "[DONE]\n"), "").failure == "gateway omitted the successful final result"
    ensures s.done ==>
              Line(decode, s.(data := "x\n"), "").failure == "gateway sent data after stream completion"
    ensures !s.done ==> Finished(decode, Parser("", s)).failure == "gateway stream ended without a successful terminal event"
    ensures s.done && s.stopped && s.result.text == "" ==>
              Finished(decode, Parser("", s)).failure == "gateway returned an empty answer"
  {
    DoneIsPlain();
    TrimOne("x");
    assert "x" + "\n" == "x\n";
  }
}
