/** The plan for one turn of the agent: slash commands, a fold over the persisted conversation that takes
    only confirmed context cuts and model snapshots, and a prompt cut to a budget. Strings are bytes. */
module PromptPlan {
  import opened Basics

  // ----- commands

  datatype Kind =
    | NoCommand | New | Status | Retry | Restart | Model | Agent | Reasoning | Help | Cann | Knowledge
    | Creative | Stop | Approve | Deny | Compact | Unknown

  datatype Command = Command(kind: Kind, name: string, arguments: string)

  predicate IsBlank(c: char) {
    c == ' ' || c == '\t' || c == '\r' || c == '\n'
  }

  function Trim(s: string): string {
    if s == "" then ""
    else if IsBlank(s[0]) then Trim(s[1..])
    else if IsBlank(s[|s| - 1]) then Trim(s[..|s| - 1])
    else s
  }

  /** The position of the first blank, or the length. */
  function FirstBlank(s: string): (n: nat)
    ensures n <= |s|
  {
    if s == "" || IsBlank(s[0]) then 0 else 1 + FirstBlank(s[1..])
  }

  function Lower(s: string): string {
    seq(|s|, i requires 0 <= i < |s| => if 'A' <= s[i] <= 'Z' then s[i] - 'A' + 'a' else s[i])
  }

  const CREATIVE := {
    "roleplay", "rp", "write", "scene", "character", "world", "memory", "remember", "forget", "persona",
    "branch", "branches", "canon", "export" }

  function KindOf(token: string): Kind {
    if token == "new" || token == "reset" || token == "clear" then New
    else if token == "status" then Status
    else if token == "restart" then Restart
    else if token == "retry" then Retry
    else if token == "reasoning" || token == "thinking" then Reasoning
    else if token == "agent" || token == "agents" then Agent
    else if token == "model" then Model
    else if token == "help" || token == "commands" then Help
    else if token == "cann" then Cann
    else if token == "kb" then Knowledge
    else if token == "stop" then Stop
    else if token == "approve" then Approve
    else if token == "deny" then Deny
    else if token == "compact" then Compact
    else if token in CREATIVE then Creative
    else Unknown
  }

  /** Aliases get one name; creative commands keep the word that was typed. */
  function NameOf(kind: Kind, token: string): string {
    match kind
    case New => "new"
    case Reasoning => "reasoning"
    case Agent => "agent"
    case Help => "help"
    case _ => token
  }

  function Parse(text: string): Command {
    var input := Trim(text);
    if input == "" || input[0] != '/' then Command(NoCommand, "", "")
    else
      var end := FirstBlank(input);
      var token := Lower(input[1..end]);
      Command(KindOf(token), NameOf(KindOf(token), token), if end < |input| then Trim(input[end + 1..]) else "")
  }

  // ----- the conversation

  datatype Entry = Entry(
    msgSeq: int, assistant: bool, commandReply: bool, text: string,
    confirmsNew: bool, hasContext: bool, contextStart: int,
    hasModel: bool, modelChosen: bool, model: string, provider: string)

  datatype Role = User | Assistant

  datatype Message = Message(role: Role, text: string)

  datatype ModelState = ModelState(chosen: bool, model: string, provider: string)

  const DEFAULT_MODEL := ModelState(false, "", "")

  /** What the fold carries along: the context's first sequence number, its messages, the model in force,
      and the last /new a user asked for. */
  datatype History = History(start: int, messages: seq<Message>, model: ModelState, pendingNew: int)

  const NO_HISTORY := History(0, [], DEFAULT_MODEL, 0)

  function Snapshot(e: Entry): ModelState {
    if e.modelChosen then ModelState(true, e.model, e.provider) else DEFAULT_MODEL
  }

  function CutAt(h: History, start: int): History {
    History(start, [], DEFAULT_MODEL, h.pendingNew)
  }

  function Apply(h: History, e: Entry): History {
    var h1 := if e.assistant && e.confirmsNew && h.pendingNew > h.start then CutAt(h, h.pendingNew) else h;
    var h2 := if e.assistant && e.hasContext && e.contextStart > h1.start then CutAt(h1, e.contextStart) else h1;
    var h3 := if e.hasModel then h2.(model := Snapshot(e)) else h2;
    if e.commandReply || e.text == "" then h3
    else if e.assistant then h3.(messages := h3.messages + [Message(Assistant, e.text)])
    else
      match Parse(e.text).kind
      case NoCommand => h3.(messages := h3.messages + [Message(User, e.text)])
      case Cann => h3.(messages := h3.messages + [Message(User, e.text)])
      case Knowledge => h3.(messages := h3.messages + [Message(User, e.text)])
      case New => h3.(pendingNew := e.msgSeq)
      case _ => h3
  }

  function Fold(entries: seq<Entry>): History {
    if entries == [] then NO_HISTORY else Apply(Fold(entries[..|entries| - 1]), entries[|entries| - 1])
  }

  // ----- the same, declared entry by entry

  predicate AsksNew(e: Entry) {
    !e.assistant && !e.commandReply && e.text != "" && Parse(e.text).kind == New
  }

  /** What an entry contributes to the prompt, wherever it stands. */
  function Said(e: Entry): seq<Message> {
    if e.commandReply || e.text == "" then []
    else if e.assistant then [Message(Assistant, e.text)]
    else if Parse(e.text).kind in {NoCommand, Cann, Knowledge} then [Message(User, e.text)]
    else []
  }

  function Texts(entries: seq<Entry>): seq<Message> {
    if entries == [] then [] else Texts(entries[..|entries| - 1]) + Said(entries[|entries| - 1])
  }

  function LastModel(entries: seq<Entry>): ModelState {
    if entries == [] then DEFAULT_MODEL
    else if entries[|entries| - 1].hasModel then Snapshot(entries[|entries| - 1])
    else LastModel(entries[..|entries| - 1])
  }

  function LastNew(entries: seq<Entry>): int {
    if entries == [] then 0
    else if AsksNew(entries[|entries| - 1]) then entries[|entries| - 1].msgSeq
    else LastNew(entries[..|entries| - 1])
  }

  /** Where an entry wants the context to start, after the entries before it; 0 if it says nothing. Only
      the assistant's confirmations count. */
  function Confirmed(before: seq<Entry>, e: Entry): int {
    if !e.assistant then 0
    else Max(0, Max(if e.confirmsNew then LastNew(before) else 0, if e.hasContext then e.contextStart else 0))
  }

  function Cut(entries: seq<Entry>, i: nat): int
    requires i < |entries|
  {
    Confirmed(entries[..i], entries[i])
  }

  predicate NoCut(entries: seq<Entry>) {
    forall i | 0 <= i < |entries| :: Cut(entries, i) == 0
  }

  /** The first of the entries that confirm the latest start. */
  predicate IsCut(entries: seq<Entry>, i: nat) {
    && i < |entries| && Cut(entries, i) > 0
    && (forall j | 0 <= j < i :: Cut(entries, j) < Cut(entries, i))
    && (forall j | i < j < |entries| :: Cut(entries, j) <= Cut(entries, i))
  }

  /** Everything an entry does besides cutting. */
  function Add(h: History, e: Entry): History {
    History(h.start, h.messages + Said(e), if e.hasModel then Snapshot(e) else h.model,
            if AsksNew(e) then e.msgSeq else h.pendingNew)
  }

  lemma ApplyIs(h: History, e: Entry, before: seq<Entry>)
    requires h.pendingNew == LastNew(before) && h.start >= 0
    ensures Apply(h, e) == Add(if Confirmed(before, e) > h.start then CutAt(h, Confirmed(before, e)) else h, e)
  {
    assert h.messages + [] == h.messages;
    assert [] + Said(e) == Said(e);
  }

  lemma {:induction false} PendingIsLastNew(entries: seq<Entry>)
    ensures Fold(entries).pendingNew == LastNew(entries) && Fold(entries).start >= 0
  {
    if entries != [] {
      var n := |entries| - 1;
      PendingIsLastNew(entries[..n]);
      ApplyIs(Fold(entries[..n]), entries[n], entries[..n]);
    }
  }

  lemma CutOfPrefix(entries: seq<Entry>, n: nat, i: nat)
    requires i < n <= |entries|
    ensures Cut(entries[..n], i) == Cut(entries, i)
  {
    assert entries[..n][..i] == entries[..i];
  }

  /** The context starts at the largest number any entry has confirmed. */
  lemma {:induction false} StartIsLargestCut(entries: seq<Entry>)
    ensures forall i | 0 <= i < |entries| :: Cut(entries, i) <= Fold(entries).start
    ensures Fold(entries).start == 0 || exists i | 0 <= i < |entries| :: Cut(entries, i) == Fold(entries).start
  {
    if entries != [] {
      var n := |entries| - 1;
      StartIsLargestCut(entries[..n]);
      PendingIsLastNew(entries[..n]);
      ApplyIs(Fold(entries[..n]), entries[n], entries[..n]);
      CutOfPrefixes(entries, n);
      LargestCut(entries, Fold(entries[..n]).start, Fold(entries).start);
    }
  }

  lemma LargestCut(entries: seq<Entry>, before: int, after: int)
    requires entries != [] && before >= 0
    requires after == Max(before, Cut(entries, |entries| - 1))
    requires forall i | 0 <= i < |entries| - 1 :: Cut(entries, i) <= before
    requires before == 0 || exists i | 0 <= i < |entries| - 1 :: Cut(entries, i) == before
    ensures forall i | 0 <= i < |entries| :: Cut(entries, i) <= after
    ensures after == 0 || exists i | 0 <= i < |entries| :: Cut(entries, i) == after
  {
  }

  /** The context never starts earlier than it did. */
  lemma StartNeverDecreases(entries: seq<Entry>, later: seq<Entry>)
    ensures Fold(entries).start <= Fold(entries + later).start
  {
    StartIsLargestCut(entries);
    StartIsLargestCut(entries + later);
    PendingIsLastNew(entries + later);
    if Fold(entries).start > 0 {
      var i :| 0 <= i < |entries| && Cut(entries, i) == Fold(entries).start;
      assert (entries + later)[..|entries|] == entries;
      CutOfPrefix(entries + later, |entries|, i);
    }
  }

  lemma CutsOfPrefix(entries: seq<Entry>, n: nat, from: nat)
    requires n <= |entries|
    ensures NoCut(entries) ==> NoCut(entries[..n])
    ensures from < n && IsCut(entries, from) ==> IsCut(entries[..n], from)
  {
    forall i | 0 <= i < n
      ensures Cut(entries[..n], i) == Cut(entries, i)
    {
      CutOfPrefix(entries, n, i);
    }
  }

  /** What the fold amounts to, when the context begins with entry `from`. */
  predicate Declared(h: History, entries: seq<Entry>, from: nat, start: int)
    requires from <= |entries|
  {
    h == History(start, Texts(entries[from..]), LastModel(entries[from..]), LastNew(entries))
  }

  lemma AddDeclared(h: History, entries: seq<Entry>, from: nat, start: int, e: Entry)
    requires from <= |entries| && Declared(h, entries, from, start)
    ensures Declared(Add(h, e), entries + [e], from, start)
  {
    assert (entries + [e])[from..] == entries[from..] + [e];
    assert (entries[from..] + [e])[..|entries| - from] == entries[from..];
    assert (entries + [e])[..|entries|] == entries;
  }

  lemma StartsAfresh(h: History, entries: seq<Entry>, start: int, e: Entry)
    requires h.pendingNew == LastNew(entries)
    ensures Declared(Add(CutAt(h, start), e), entries + [e], |entries|, start)
  {
    assert entries[|entries|..] == [];
    AddDeclared(CutAt(h, start), entries, |entries|, start, e);
  }

  /** The fold, declared: if nothing was confirmed, all texts count and the context starts at 0. */
  lemma {:induction false} FoldWithoutCut(entries: seq<Entry>)
    requires NoCut(entries)
    ensures Declared(Fold(entries), entries, 0, 0)
  {
    if entries != [] {
      var n := |entries| - 1;
      CutsOfPrefix(entries, n, 0);
      FoldWithoutCut(entries[..n]);
      PendingIsLastNew(entries[..n]);
      ApplyIs(Fold(entries[..n]), entries[n], entries[..n]);
      assert Cut(entries, n) == 0;
      AddDeclared(Fold(entries[..n]), entries[..n], 0, 0, entries[n]);
      assert entries[..n] + [entries[n]] == entries;
    } else {
      assert entries[0..] == [];
    }
  }

  /** The fold, declared: the context is what was said from the entry that confirmed the latest start, and
      the model is the last snapshot from there on. */
  lemma {:induction false} FoldFromCut(entries: seq<Entry>, from: nat)
    requires IsCut(entries, from)
    ensures Declared(Fold(entries), entries, from, Cut(entries, from))
  {
    var n := |entries| - 1;
    var before := Fold(entries[..n]);
    PendingIsLastNew(entries[..n]);
    ApplyIs(before, entries[n], entries[..n]);
    assert Cut(entries, n) == Confirmed(entries[..n], entries[n]);
    assert entries[..n] + [entries[n]] == entries;
    CutOfPrefixes(entries, n);
    if from == n {
      StartIsLargestCut(entries[..n]);
      StartsAfresh(before, entries[..n], Cut(entries, n), entries[n]);
    } else {
      CutsOfPrefix(entries, n, from);
      FoldFromCut(entries[..n], from);
      AddDeclared(before, entries[..n], from, Cut(entries, from), entries[n]);
    }
  }

  lemma CutOfPrefixes(entries: seq<Entry>, n: nat)
    requires n <= |entries|
    ensures forall i | 0 <= i < n :: Cut(entries[..n], i) == Cut(entries, i)
  {
    forall i | 0 <= i < n
      ensures Cut(entries[..n], i) == Cut(entries, i)
    {
      CutOfPrefix(entries, n, i);
    }
  }

  lemma NoCutExtends(entries: seq<Entry>)
    requires entries != [] && NoCut(entries[..|entries| - 1])
    ensures if Cut(entries, |entries| - 1) == 0 then NoCut(entries) else IsCut(entries, |entries| - 1)
  {
    CutOfPrefixes(entries, |entries| - 1);
  }

  lemma CutExtends(entries: seq<Entry>, i: nat)
    requires entries != [] && IsCut(entries[..|entries| - 1], i)
    ensures IsCut(entries, if Cut(entries, |entries| - 1) > Cut(entries, i) then |entries| - 1 else i)
  {
    CutOfPrefixes(entries, |entries| - 1);
  }

  /** One of the two declarations always applies. */
  lemma {:induction false} CutExists(entries: seq<Entry>)
    ensures NoCut(entries) || exists i | 0 <= i < |entries| :: IsCut(entries, i)
  {
    if entries != [] {
      var n := |entries| - 1;
      CutExists(entries[..n]);
      if NoCut(entries[..n]) {
        NoCutExtends(entries);
      } else {
        var i :| 0 <= i < n && IsCut(entries[..n], i);
        CutExtends(entries, i);
      }
    }
  }

  // ----- what users type

  /** A user entry without a snapshot that neither asks the model nor asks for a new context. */
  predicate Inert(e: Entry) {
    !e.assistant && !e.hasModel && (e.commandReply || e.text == "" || Parse(e.text).kind !in {NoCommand, Cann, Knowledge, New})
  }

  /** A user's entry changes nothing, whatever was confirmed before, exactly if it is inert. */
  lemma InertExactlyWhen(e: Entry)
    requires !e.assistant
    ensures (forall h :: Apply(h, e) == h) <==> Inert(e)
  {
    if forall h :: Apply(h, e) == h {
      var other := ModelState(!e.modelChosen, "", "");
      var h := History(0, [], other, e.msgSeq + 1);
      assert Apply(h, e) == h;
    }
  }

  lemma {:induction false} FoldOn(a: seq<Entry>, b: seq<Entry>, c: seq<Entry>)
    requires Fold(a) == Fold(b)
    ensures Fold(a + c) == Fold(b + c)
    decreases |c|
  {
    if c == [] {
      assert a + c == a && b + c == b;
    } else {
      var n := |c| - 1;
      FoldOn(a, b, c[..n]);
      assert (a + c)[..|a + c| - 1] == a + c[..n] && (b + c)[..|b + c| - 1] == b + c[..n];
    }
  }

  /** Commands that were typed but not confirmed can be erased from the conversation. */
  lemma ErasingInert(before: seq<Entry>, e: Entry, after: seq<Entry>)
    requires Inert(e)
    ensures Fold(before + [e] + after) == Fold(before + after)
  {
    assert (before + [e])[..|before|] == before;
    InertExactlyWhen(e);
    FoldOn(before + [e], before, after);
  }

  // ----- the budget

  function Chars(messages: seq<Message>): nat {
    if messages == [] then 0 else |messages[0].text| + Chars(messages[1..])
  }

  /** Drops the oldest message as long as the rest is over budget and not the only one. */
  function Limited(messages: seq<Message>, budget: nat): seq<Message> {
    if |messages| <= 1 || Chars(messages) <= budget then messages else Limited(messages[1..], budget)
  }

  lemma {:induction false} ShorterIsCheaper(messages: seq<Message>, j: nat, k: nat)
    requires j <= k <= |messages|
    ensures Chars(messages[k..]) <= Chars(messages[j..])
    decreases k - j
  {
    if j < k {
      ShorterIsCheaper(messages, j + 1, k);
      assert messages[j..][1..] == messages[j + 1..];
    }
  }

  /** A suffix that fits, or is the last message alone, and that cannot be made longer. */
  predicate Longest(messages: seq<Message>, budget: nat, k: nat) {
    && k < |messages|
    && (k == |messages| - 1 || Chars(messages[k..]) <= budget)
    && (forall j | 0 <= j < k :: Chars(messages[j..]) > budget)
  }

  /** There is only one such suffix, it is what is kept, and it ends with the newest message. */
  lemma {:induction false} LimitedIsLongest(messages: seq<Message>, budget: nat, k: nat)
    requires Longest(messages, budget, k)
    ensures Limited(messages, budget) == messages[k..]
    decreases k
  {
    assert messages[0..] == messages;
    if k > 0 {
      var rest := messages[1..];
      forall j | 0 <= j < |messages| - 1
        ensures rest[j..] == messages[j + 1..]
      {
      }
      LimitedIsLongest(rest, budget, k - 1);
    } else if |messages| > 1 {
      assert Chars(messages) <= budget;
    }
  }

  lemma {:induction false} LongestExists(messages: seq<Message>, budget: nat) returns (k: nat)
    requires messages != []
    ensures Longest(messages, budget, k)
  {
    if |messages| == 1 || Chars(messages) <= budget {
      k := 0;
      assert messages[0..] == messages;
    } else {
      var rest := LongestExists(messages[1..], budget);
      k := rest + 1;
      forall j | 0 <= j < |messages| - 1
        ensures messages[1..][j..] == messages[j + 1..]
      {
      }
      forall j | 0 <= j < k
        ensures Chars(messages[j..]) > budget
      {
        if j == 0 {
          assert messages[0..] == messages;
        } else {
          assert messages[1..][j - 1..] == messages[j..];
        }
      }
    }
  }

  function Reversed(s: seq<Message>): seq<Message> {
    if s == [] then [] else Reversed(s[1..]) + [s[0]]
  }

  lemma {:induction false} ReversedTwice(s: seq<Message>)
    ensures Reversed(Reversed(s)) == s
  {
    if s != [] {
      ReversedTwice(s[1..]);
      ReversedOn(Reversed(s[1..]), s[0]);
    }
  }

  lemma {:induction false} ReversedOn(s: seq<Message>, m: Message)
    ensures Reversed(s + [m]) == [m] + Reversed(s)
  {
    if s == [] {
      assert [m][1..] == [];
    } else {
      ReversedOn(s[1..], m);
      assert (s + [m])[1..] == s[1..] + [m];
    }
  }

  // ----- /model

  datatype Problem =
    | NoProblem | BadProvider | BadModel | GlobalRefused | NeedsProvider
    | RestartUsage | NewUsage | RetryUsage | CannUsage | KnowledgeUsage | ReadOnlyKnowledge

  predicate SpaceOrControl(c: char) {
    c <= ' ' || c == 127 as char
  }

  predicate HasSpaceOrControl(s: string) {
    exists i | 0 <= i < |s| :: SpaceOrControl(s[i])
  }

  /** The position of the first colon, or the length. */
  function FirstColon(s: string): (n: nat)
    ensures n <= |s| && (n < |s| ==> s[n] == ':')
    ensures n == |s| <==> ':' !in s
  {
    if s == "" || s[0] == ':' then 0 else 1 + FirstColon(s[1..])
  }

  predicate Browses(target: string) {
    |target| > 1 && target[|target| - 1] == ':'
  }

  /** The model state after /model with these arguments, and what is wrong with them. */
  function ChooseModel(m: ModelState, arguments: string): (ModelState, Problem) {
    var target := Trim(arguments);
    if target == "" || target == "refresh" then (m, NoProblem)
    else if target == "default" || target == "reset" then (DEFAULT_MODEL, NoProblem)
    else if Browses(target) then
      var provider := target[..|target| - 1];
      if ':' in provider then (m.(provider := provider), BadProvider) else (ModelState(false, "", provider), NoProblem)
    else if |target| > 128 || HasSpaceOrControl(target) then (m, BadModel)
    else if "--global" <= target then (m, GlobalRefused)
    else
      var colon := FirstColon(target);
      if colon == |target| then (m, NeedsProvider)
      else
        var m' := ModelState(m.chosen, target[colon + 1..], target[..colon]);
        if m'.provider == "" || m'.model == "" then (m', BadModel) else (m'.(chosen := true), NoProblem)
  }

  /** The arguments name a model as provider:model, and this is it. */
  predicate Names(arguments: string, m: ModelState) {
    && m.chosen && m.provider != "" && m.model != "" && ':' !in m.provider
    && m.provider + ":" + m.model == Trim(arguments)
  }

  /** The model in force after an accepted /model is the one before it or the one that was typed, and no
      rejected /model puts one in force. */
  lemma ChosenIsWhatWasTyped(m: ModelState, arguments: string)
    ensures var (after, problem) := ChooseModel(m, arguments);
            && (problem == NoProblem && after.chosen ==> after == m || Names(arguments, after))
            && (problem != NoProblem ==> after.chosen == m.chosen)
  {
    var (after, problem) := ChooseModel(m, arguments);
    if problem == NoProblem && after.chosen && after != m {
      TypedIsNamed(arguments, after);
    }
  }

  lemma TypedIsNamed(arguments: string, m: ModelState)
    requires m.chosen && m.provider != "" && m.model != "" && FirstColon(Trim(arguments)) < |Trim(arguments)|
    requires m.provider == Trim(arguments)[..FirstColon(Trim(arguments))]
    requires m.model == Trim(arguments)[FirstColon(Trim(arguments)) + 1..]
    ensures Names(arguments, m)
  {
    SplitAtColon(Trim(arguments));
  }

  lemma SplitAtColon(target: string)
    ensures ':' !in target[..FirstColon(target)]
    ensures var colon := FirstColon(target); colon < |target| ==> target[..colon] + ":" + target[colon + 1..] == target
  {
    NoColonBefore(target);
    var colon := FirstColon(target);
    if colon < |target| {
      JoinAround(target, colon);
    }
  }

  lemma JoinAround(s: string, i: nat)
    requires i < |s|
    ensures s[..i] + [s[i]] + s[i + 1..] == s
  {
  }

  lemma {:induction false} NoColonBefore(s: string)
    ensures ':' !in s[..FirstColon(s)]
  {
    if s != "" && s[0] != ':' {
      NoColonBefore(s[1..]);
      assert s[..FirstColon(s)] == [s[0]] + s[1..][..FirstColon(s[1..])];
    }
  }

  /** Arguments that are rejected only after the source has split them at a colon: a provider listing with
      a second colon, or provider:model with an empty half. */
  predicate Splits(target: string) {
    if Browses(target) then ':' in target[..|target| - 1]
    else
      && target != "" && |target| <= 128 && !HasSpaceOrControl(target) && !("--global" <= target)
      && FirstColon(target) < |target| && (FirstColon(target) == 0 || FirstColon(target) == |target| - 1)
  }

  lemma SplitsRejected(m: ModelState, arguments: string)
    requires Splits(Trim(arguments))
    ensures ChooseModel(m, arguments).1 != NoProblem
  {
  }

  /** Rejected arguments keep the override flag, and keep provider and model too unless they were split. */
  lemma RejectedKeepsModel(m: ModelState, arguments: string)
    ensures var (after, problem) := ChooseModel(m, arguments);
            problem != NoProblem ==> after.chosen == m.chosen && (after != m ==> Splits(Trim(arguments)))
  {
  }

  /** A /model can be rejected and still change the model state exactly if its arguments were split. */
  lemma RejectedChangesExactlyWhen(arguments: string)
    ensures (exists m :: ChooseModel(m, arguments).1 != NoProblem && ChooseModel(m, arguments).0 != m)
        <==> Splits(Trim(arguments))
  {
    if Splits(Trim(arguments)) {
      SplitChangesOne(arguments);
    } else {
      forall m | ChooseModel(m, arguments).1 != NoProblem
        ensures ChooseModel(m, arguments).0 == m
      {
        RejectedKeepsModel(m, arguments);
      }
    }
  }

  lemma SplitChangesOne(arguments: string)
    requires Splits(Trim(arguments))
    ensures exists m :: ChooseModel(m, arguments).1 != NoProblem && ChooseModel(m, arguments).0 != m
  {
    var target := Trim(arguments);
    var provider := if Browses(target) then target[..|target| - 1] else target[..FirstColon(target)];
    var m := ModelState(true, "", provider + "!");
    SplitsRejected(m, arguments);
    assert |m.provider| != |provider|;
    assert ChooseModel(m, arguments).0.provider == provider;
  }

  /** Such arguments do change it: the override stays, but names another model. */
  lemma RejectedMayChangeModel()
    ensures var m := ModelState(true, "large", "acme");
            ChooseModel(m, ":small") == (ModelState(true, "small", ""), BadModel)
  {
    var target := ":small";
    assert target[0] == ':' && target[|target| - 1] == 'l';
    assert Trim(target) == target;
    assert target[..0] == "" && target[1..] == "small";
  }

  // ----- the plan

  datatype View = View(
    command: Command, messages: seq<Message>, callModel: bool, forceRetrieval: bool, model: ModelState,
    problem: Problem, start: int, contextMessages: nat, promptChars: nat)

  predicate Confirms(arguments: string) {
    arguments == "now" || arguments == "--yes" || arguments == "-y"
  }

  const MANAGEMENT := {"build", "rebuild", "ingest", "sync", "delete", "remove", "source", "add", "enable", "disable"}

  predicate ManagesKnowledge(arguments: string) {
    var lowered := Lower(Trim(arguments));
    lowered[..FirstBlank(lowered)] in MANAGEMENT
  }

  /** Whether the current text goes to the model as a prompt of its own. */
  predicate Prompts(text: string) {
    var c := Parse(text);
    match c.kind
    case NoCommand => text != ""
    case Cann => c.arguments != ""
    case Knowledge => c.arguments != "" && !ManagesKnowledge(c.arguments)
    case _ => false
  }

  predicate CallsModel(text: string) {
    var c := Parse(text);
    match c.kind
    case NoCommand => true
    case Cann => Prompts(text)
    case Knowledge => Prompts(text)
    case Retry => Confirms(c.arguments)
    case _ => false
  }

  function ProblemWith(text: string, m: ModelState): Problem {
    var c := Parse(text);
    var usage := c.arguments != "" && !Confirms(c.arguments);
    match c.kind
    case Restart => if usage then RestartUsage else NoProblem
    case New => if usage then NewUsage else NoProblem
    case Retry => if usage then RetryUsage else NoProblem
    case Model => ChooseModel(m, c.arguments).1
    case Cann => if c.arguments == "" then CannUsage else NoProblem
    case Knowledge =>
      if c.arguments == "" then KnowledgeUsage
      else if ManagesKnowledge(c.arguments) then ReadOnlyKnowledge
      else NoProblem
    case _ => NoProblem
  }

  function Planned(history: seq<Entry>, text: string, budget: nat): View {
    var c, h := Parse(text), Fold(history);
    var all := if Prompts(text) then h.messages + [Message(User, text)] else h.messages;
    var kept := if CallsModel(text) then Limited(all, budget) else all;
    View(c, kept, CallsModel(text), c.kind == Cann || c.kind == Knowledge,
         if c.kind == Model then ChooseModel(h.model, c.arguments).0 else h.model,
         ProblemWith(text, h.model), h.start, |all|, if CallsModel(text) then Chars(kept) else 0)
  }

  lemma LimitedKeepsLast(before: seq<Message>, last: Message, budget: nat) returns (k: nat)
    ensures k <= |before| && Limited(before + [last], budget) == before[k..] + [last]
    ensures k == |before| || Chars(before[k..] + [last]) <= budget
    ensures forall j | 0 <= j < k :: Chars(before[j..] + [last]) > budget
  {
    var all := before + [last];
    k := LongestExists(all, budget);
    LimitedIsLongest(all, budget, k);
    forall j | 0 <= j <= |before|
      ensures all[j..] == before[j..] + [last]
    {
    }
  }

  /** What goes to the model: as much of the newest context as fits, and always the whole of what the user
      has just typed. */
  lemma PromptKeepsInput(history: seq<Entry>, text: string, budget: nat) returns (k: nat)
    requires Prompts(text)
    ensures var plan, context := Planned(history, text, budget), Fold(history).messages;
            && plan.callModel && plan.problem == NoProblem && k <= |context|
            && plan.messages == context[k..] + [Message(User, text)]
            && plan.promptChars == Chars(plan.messages)
            && (k == |context| || plan.promptChars <= budget)
            && (forall j | 0 <= j < k :: Chars(context[j..] + [Message(User, text)]) > budget)
  {
    k := LimitedKeepsLast(Fold(history).messages, Message(User, text), budget);
  }

  // ----- the plan in the form of the source

  class Plan {
    var command: Command
    var messages: seq<Message>
    var callModel: bool
    var forceRetrieval: bool
    var model: ModelState
    var problem: Problem
    var start: int
    var contextMessages: nat
    var promptChars: nat

    constructor ()
      ensures ViewOf() == View(Command(NoCommand, "", ""), [], true, false, DEFAULT_MODEL, NoProblem, 0, 0, 0)
    {
      command, messages, callModel, forceRetrieval := Command(NoCommand, "", ""), [], true, false;
      model, problem, start, contextMessages, promptChars := DEFAULT_MODEL, NoProblem, 0, 0, 0;
    }

    function ViewOf(): View
      reads this
    {
      View(command, messages, callModel, forceRetrieval, model, problem, start, contextMessages, promptChars)
    }

    function HistoryWith(pendingNew: int): History
      reads this
    {
      History(start, messages, model, pendingNew)
    }

    method CutContext(at: int)
      modifies this`start, this`messages, this`model
      ensures start == at && messages == [] && model == DEFAULT_MODEL
    {
      start, messages, model := at, [], DEFAULT_MODEL;
    }

    method ApplyPersistedEntry(e: Entry, pendingNew: int) returns (pending: int)
      modifies this`start, this`messages, this`model
      ensures HistoryWith(pending) == Apply(old(HistoryWith(pendingNew)), e)
    {
      pending := pendingNew;
      if e.assistant && e.confirmsNew && pending > start {
        CutContext(pending);
      }
      if e.assistant && e.hasContext && e.contextStart > start {
        CutContext(e.contextStart);
      }
      if e.hasModel {
        model := Snapshot(e);
      }
      if e.commandReply || e.text == "" {
        return;
      }
      if e.assistant {
        messages := messages + [Message(Assistant, e.text)];
        return;
      }
      var c := Parse(e.text);
      match c.kind {
        case NoCommand => messages := messages + [Message(User, e.text)];
        case New => pending := e.msgSeq;
        case Cann => messages := messages + [Message(User, e.text)];
        case Knowledge => messages := messages + [Message(User, e.text)];
        case _ =>
      }
    }

    /** Walks from the newest message to the oldest until the next one would not fit. */
    method LimitPrompt(budget: nat)
      modifies this`messages, this`promptChars
      ensures messages == Limited(old(messages), budget) && promptChars == Chars(messages)
    {
      if messages == [] {
        promptChars := 0;
        return;
      }
      var selected: seq<Message> := [];
      var chars := 0;
      var i := |messages|;
      assert messages[i..] == [];
      while i > 0
        invariant 0 <= i <= |messages| && messages == old(messages)
        invariant selected == Reversed(messages[i..]) && chars == Chars(messages[i..])
        invariant i < |messages| - 1 ==> chars <= budget
      {
        var item := messages[i - 1];
        assert messages[i - 1..][1..] == messages[i..];
        if selected != [] && chars + |item.text| > budget {
          break;
        }
        selected := selected + [item];
        chars := chars + |item.text|;
        i := i - 1;
      }
      ReversedTwice(messages[i..]);
      SuffixIsLongest(messages, budget, i);
      LimitedIsLongest(messages, budget, i);
      messages := Reversed(selected);
      promptChars := chars;
    }
  }

  lemma SuffixIsLongest(messages: seq<Message>, budget: nat, k: nat)
    requires k < |messages| && (k == |messages| - 1 || Chars(messages[k..]) <= budget)
    requires k > 0 ==> Chars(messages[k - 1..]) > budget
    ensures Longest(messages, budget, k)
  {
    forall j | 0 <= j < k
      ensures Chars(messages[j..]) > budget
    {
      ShorterIsCheaper(messages, j, k - 1);
    }
  }

  method BuildPlan(history: seq<Entry>, text: string, budget: nat) returns (plan: Plan)
    ensures fresh(plan) && plan.ViewOf() == Planned(history, text, budget)
  {
    plan := new Plan();
    var pendingNew := 0;
    for i := 0 to |history|
      invariant fresh(plan)
      invariant plan.HistoryWith(pendingNew) == Fold(history[..i])
      invariant plan.callModel && !plan.forceRetrieval && plan.problem == NoProblem
      invariant plan.contextMessages == plan.promptChars == 0
    {
      assert history[..i + 1][..i] == history[..i];
      pendingNew := plan.ApplyPersistedEntry(history[i], pendingNew);
    }
    assert history[..|history|] == history;
    Interpret(plan, text);
    plan.contextMessages := |plan.messages|;
    if plan.callModel {
      plan.LimitPrompt(budget);
    }
  }

  /** What the current text asks for, on top of the history. */
  method Interpret(plan: Plan, text: string)
    requires plan.callModel && !plan.forceRetrieval && plan.problem == NoProblem
    modifies plan
    ensures var c, was := Parse(text), old(plan.ViewOf());
            plan.ViewOf() == was.(
              command := c,
              messages := if Prompts(text) then was.messages + [Message(User, text)] else was.messages,
              callModel := CallsModel(text),
              forceRetrieval := c.kind == Cann || c.kind == Knowledge,
              model := if c.kind == Model then ChooseModel(was.model, c.arguments).0 else was.model,
              problem := ProblemWith(text, was.model))
  {
    var c := Parse(text);
    plan.command := c;
    match c.kind {
      case NoCommand =>
        if text != "" {
          plan.messages := plan.messages + [Message(User, text)];
        }
      case Restart =>
        plan.callModel := false;
        if c.arguments != "" && !Confirms(c.arguments) {
          plan.problem := RestartUsage;
        }
      case New =>
        plan.callModel := false;
        if c.arguments != "" && !Confirms(c.arguments) {
          plan.problem := NewUsage;
        }
      case Model =>
        plan.callModel := false;
        var (model, problem) := ChooseModel(plan.model, c.arguments);
        plan.model, plan.problem := model, problem;
      case Retry =>
        plan.callModel := Confirms(c.arguments);
        if c.arguments != "" && !plan.callModel {
          plan.problem := RetryUsage;
        }
      case Cann =>
        plan.forceRetrieval := true;
        if c.arguments == "" {
          plan.callModel, plan.problem := false, CannUsage;
        } else {
          plan.messages := plan.messages + [Message(User, text)];
        }
      case Knowledge =>
        plan.forceRetrieval := true;
        if c.arguments == "" {
          plan.callModel, plan.problem := false, KnowledgeUsage;
        } else if ManagesKnowledge(c.arguments) {
          plan.callModel, plan.problem := false, ReadOnlyKnowledge;
        } else {
          plan.messages := plan.messages + [Message(User, text)];
        }
      case _ =>
        plan.callModel := false;
    }
  }
}
