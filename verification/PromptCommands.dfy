/** What users type, as text: how commands may be written, and what each of them does to the plan and to the
    context that later prompts are given. */
module PromptCommands {
  import opened PromptPlan

  /** The words that ask for a command after a slash. */
  function WordsFor(kind: Kind): set<string> {
    match kind
    case New => {"new", "reset", "clear"}
    case Status => {"status"}
    case Restart => {"restart"}
    case Retry => {"retry"}
    case Reasoning => {"reasoning", "thinking"}
    case Agent => {"agent", "agents"}
    case Model => {"model"}
    case Help => {"help", "commands"}
    case Cann => {"cann"}
    case Knowledge => {"kb"}
    case Stop => {"stop"}
    case Approve => {"approve"}
    case Deny => {"deny"}
    case Compact => {"compact"}
    case Creative => {"roleplay", "rp", "write", "scene", "character", "world", "memory", "remember", "forget", "persona",
                      "branch", "branches", "canon", "export"}
    case Unknown => {}
    case NoCommand => {}
  }

  /** The name under which a command is reported. */
  function CommandName(kind: Kind): string {
    match kind
    case Agent => "agent"
    case New => "new"
    case Status => "status"
    case Restart => "restart"
    case Retry => "retry"
    case Reasoning => "reasoning"
    case Model => "model"
    case Help => "help"
    case Cann => "cann"
    case Knowledge => "kb"
    case Creative => "creative"
    case Stop => "stop"
    case Approve => "approve"
    case Deny => "deny"
    case Compact => "compact"
    case Unknown => "unknown"
    case NoCommand => ""
  }

  lemma KindHasWord(word: string)
    requires KindOf(word) != Unknown
    ensures word in WordsFor(KindOf(word))
  {
  }

  lemma CreativeWord(word: string)
    requires word in {"roleplay", "rp", "write", "scene", "character", "world", "memory"}
    ensures KindOf(word) == Creative
  {
  }

  lemma OtherCreativeWord(word: string)
    requires word in {"remember", "forget", "persona", "branch", "branches", "canon", "export"}
    ensures KindOf(word) == Creative
  {
  }

  lemma SessionWord(word: string, kind: Kind)
    requires word in WordsFor(kind) && (kind.New? || kind.Status? || kind.Restart? || kind.Retry? || kind.Model? || kind.Help?)
    ensures KindOf(word) == kind
  {
  }

  lemma WordHasKind(word: string, kind: Kind)
    requires word in WordsFor(kind) && kind != Creative
    ensures KindOf(word) == kind
  {
    if kind.New? || kind.Status? || kind.Restart? || kind.Retry? || kind.Model? || kind.Help? {
      SessionWord(word, kind);
    }
  }

  /** A word has a kind exactly when it is one of the words for it; all others are unknown. */
  lemma WordsAreKinds(word: string, kind: Kind)
    requires kind != Unknown
    ensures KindOf(word) == kind <==> word in WordsFor(kind)
  {
    if word in WordsFor(kind) {
      if kind == Creative {
        if word in {"roleplay", "rp", "write", "scene", "character", "world", "memory"} {
          CreativeWord(word);
        } else {
          OtherCreativeWord(word);
        }
      } else {
        WordHasKind(word, kind);
      }
    } else if KindOf(word) == kind {
      KindHasWord(word);
    }
  }

  lemma WordsAreNames(word: string)
    ensures NameOf(KindOf(word), word) ==
              if KindOf(word) == Unknown || KindOf(word) == Creative then word else CommandName(KindOf(word))
  {
  }

  // ----- spelling

  predicate Blank(s: string) {
    forall i | 0 <= i < |s| :: s[i] == ' ' || s[i] == '\t' || s[i] == '\r' || s[i] == '\n'
  }

  /** Nothing to trim at either end. */
  predicate Tight(s: string) {
    s != "" ==> !IsBlank(s[0]) && !IsBlank(s[|s| - 1])
  }

  lemma {:induction false} TrimTight(s: string)
    requires Tight(s)
    ensures Trim(s) == s
  {
  }

  lemma {:induction false} TrimBehind(s: string, after: string)
    requires Tight(s) && Blank(after)
    ensures Trim(s + after) == s
    decreases |after|
  {
    var all := s + after;
    if after == "" {
      assert all == s;
    } else if s == "" {
      assert all == after;
      assert Trim(all) == Trim(after[1..]);
      TrimBehind(s, after[1..]);
      assert s + after[1..] == after[1..];
    } else {
      assert all[0] == s[0] && IsBlank(all[|all| - 1]);
      assert all[..|all| - 1] == s + after[..|after| - 1];
      TrimBehind(s, after[..|after| - 1]);
    }
  }

  /** Blanks around a text do not matter. */
  lemma {:induction false} TrimAround(before: string, s: string, after: string)
    requires Blank(before) && Tight(s) && Blank(after)
    ensures Trim(before + s + after) == s
    decreases |before|
  {
    if before == "" {
      assert before + s + after == s + after;
      TrimBehind(s, after);
    } else {
      assert (before + s + after)[0] == before[0];
      assert (before + s + after)[1..] == before[1..] + s + after;
      TrimAround(before[1..], s, after);
    }
  }

  predicate NoBlanks(s: string) {
    forall i | 0 <= i < |s| :: !IsBlank(s[i])
  }

  lemma {:induction false} FirstBlankAfter(word: string, rest: string)
    requires NoBlanks(word) && (rest == "" || IsBlank(rest[0]))
    ensures FirstBlank(word + rest) == |word|
    decreases |word|
  {
    if word == "" {
      assert word + rest == rest;
    } else {
      assert (word + rest)[0] == word[0] && (word + rest)[1..] == word[1..] + rest;
      FirstBlankAfter(word[1..], rest);
    }
  }

  /** A word written with any of its letters capital. */
  predicate Spells(written: string, word: string) {
    && |written| == |word|
    && forall i | 0 <= i < |word| ::
         && !('A' <= word[i] <= 'Z')
         && (written[i] == word[i] || ('a' <= word[i] <= 'z' && written[i] as int == word[i] as int - 32))
  }

  lemma LowerSpelled(written: string, word: string)
    requires Spells(written, word)
    ensures Lower(written) == word
  {
  }

  /** A command as it may be written: blanks before the slash, its word in any case, and blanks around the
      arguments. */
  datatype Typing = Typing(before: string, written: string, between: string, arguments: string, after: string)

  function Typed(t: Typing): string {
    t.before + ("/" + t.written + t.between + t.arguments) + t.after
  }

  predicate Writes(t: Typing, word: string) {
    && Blank(t.before) && Spells(t.written, word) && NoBlanks(t.written) && Blank(t.between) && Blank(t.after)
    && Tight(t.arguments) && (t.between == "" <==> t.arguments == "")
  }

  lemma CoreTight(written: string, between: string, arguments: string)
    requires NoBlanks(written) && Tight(arguments) && (arguments == "" ==> between == "")
    ensures Tight("/" + written + between + arguments)
  {
    var core := "/" + written + between + arguments;
    if arguments == "" {
      assert core == "/" + written;
    }
  }

  lemma ParseCore(written: string, between: string, arguments: string, word: string)
    requires Spells(written, word) && NoBlanks(written) && Blank(between) && Tight(arguments)
    requires between == "" <==> arguments == ""
    ensures var core := "/" + written + between + arguments;
            && FirstBlank(core) == 1 + |written| && core[1..FirstBlank(core)] == written
            && (arguments != "" ==> FirstBlank(core) < |core| && Trim(core[FirstBlank(core) + 1..]) == arguments)
            && (arguments == "" ==> FirstBlank(core) == |core|)
  {
    var core := "/" + written + between + arguments;
    assert core == "/" + written + (between + arguments);
    FirstBlankAfter("/" + written, between + arguments);
    if arguments != "" {
      assert core[2 + |written|..] == between[1..] + arguments + "";
      TrimAround(between[1..], arguments, "");
    }
  }

  lemma KindRead(t: Typing, word: string)
    requires Writes(t, word)
    ensures Parse(Typed(t)) == Command(KindOf(word), NameOf(KindOf(word), word), t.arguments)
  {
    CoreTight(t.written, t.between, t.arguments);
    TrimAround(t.before, "/" + t.written + t.between + t.arguments, t.after);
    ParseCore(t.written, t.between, t.arguments, word);
    LowerSpelled(t.written, word);
  }

  /** A written command is read as what its word asks for, with its arguments; an alias is reported under the name
      of its command, and any other word as it is, in small letters. */
  lemma CommandIsRead(t: Typing, word: string)
    requires Writes(t, word)
    ensures var c := Parse(Typed(t));
            && (forall kind | kind != Unknown :: c.kind == kind <==> word in WordsFor(kind))
            && c.name == (if c.kind == Unknown || c.kind == Creative then word else CommandName(c.kind))
            && c.arguments == t.arguments
  {
    KindRead(t, word);
    forall kind | kind != Unknown
      ensures KindOf(word) == kind <==> word in WordsFor(kind)
    {
      WordsAreKinds(word, kind);
    }
    WordsAreNames(word);
  }

  /** A text whose first character that is not blank is not a slash is no command. */
  lemma PlainIsNoCommand(before: string, s: string, after: string)
    requires Blank(before) && Tight(s) && Blank(after) && (s == "" || s[0] != '/')
    ensures Parse(before + s + after) == Command(NoCommand, "", "")
  {
    TrimAround(before, s, after);
  }

  lemma NameHasNoBlanks(kind: Kind)
    ensures NoBlanks(CommandName(kind))
  {
  }

  lemma NameSpellsItself(kind: Kind)
    ensures Spells(CommandName(kind), CommandName(kind))
  {
  }

  lemma NameHasKind(kind: Kind)
    ensures KindOf(CommandName(kind)) == if kind == NoCommand || kind == Creative then Unknown else kind
  {
    if kind != NoCommand && kind != Creative && kind != Unknown {
      NameIsWord(kind);
      WordHasKind(CommandName(kind), kind);
    }
  }

  lemma NameIsWord(kind: Kind)
    requires kind != NoCommand && kind != Creative && kind != Unknown
    ensures CommandName(kind) in WordsFor(kind)
  {
  }

  /** The reported name of a command, typed after a slash, is that command again, except that creative commands are
      reported by a name that is none of theirs. */
  lemma NamesReadBack(kind: Kind)
    ensures Parse("/" + CommandName(kind)).kind == kind <==> kind != NoCommand && kind != Creative
  {
    var name := CommandName(kind);
    NameHasNoBlanks(kind);
    NameSpellsItself(kind);
    NameHasKind(kind);
    KindRead(Typing("", name, "", "", ""), name);
    assert Typed(Typing("", name, "", "", "")) == "/" + name;
  }

  // ----- what a command does to the plan

  /** Whatever is neither a question nor a retry stays local: the model is not called, nothing is added to the
      context, and only /model touches the model state. */
  lemma LocalCommands(history: seq<Entry>, t: Typing, word: string, budget: nat)
    requires Writes(t, word) && word !in {"cann", "kb", "retry"}
    ensures var plan, h := Planned(history, Typed(t), budget), Fold(history);
            && !plan.callModel && !plan.forceRetrieval && plan.messages == h.messages && plan.promptChars == 0
            && (word != "model" ==> plan.model == h.model)
            && (word !in {"model", "new", "reset", "clear", "restart"} ==> plan.problem == NoProblem)
  {
    KindRead(t, word);
    WordsAreKinds(word, Cann);
    WordsAreKinds(word, Knowledge);
    WordsAreKinds(word, Retry);
    WordsAreKinds(word, Model);
    WordsAreKinds(word, New);
    WordsAreKinds(word, Restart);
    assert KindOf(word) != NoCommand;
  }

  /** /new and /restart only open a confirmation or confirm it; other arguments are answered with the usage. */
  lemma ConfirmationCommands(history: seq<Entry>, t: Typing, word: string, budget: nat)
    requires Writes(t, word) && word in {"new", "reset", "clear", "restart"}
    ensures Planned(history, Typed(t), budget).problem ==
              if t.arguments in {"", "now", "--yes", "-y"} then NoProblem else if word == "restart" then RestartUsage else NewUsage
  {
    KindRead(t, word);
    WordsAreKinds(word, New);
    WordsAreKinds(word, Restart);
  }

  /** A confirmed /retry calls the model on the context as it is; any other does not. */
  lemma RetryCommand(history: seq<Entry>, t: Typing, budget: nat)
    requires Writes(t, "retry")
    ensures var plan, h := Planned(history, Typed(t), budget), Fold(history);
            && (plan.callModel <==> t.arguments in {"now", "--yes", "-y"})
            && plan.messages == (if plan.callModel then Limited(h.messages, budget) else h.messages)
            && plan.model == h.model
            && plan.problem == if t.arguments in {"", "now", "--yes", "-y"} then NoProblem else RetryUsage
  {
    KindRead(t, "retry");
    WordsAreKinds("retry", Retry);
  }

  const VERBS := {"build", "rebuild", "ingest", "sync", "delete", "remove", "source", "add", "enable", "disable"}

  /** The first word of the arguments, in any case, is one of the verbs that change the knowledge base. */
  predicate Manages(arguments: string) {
    exists verb | verb in VERBS :: Spells(arguments[..FirstBlank(arguments)], verb)
  }

  lemma {:induction false} LowerKeepsBlanks(s: string)
    ensures FirstBlank(Lower(s)) == FirstBlank(s)
  {
    if s != "" && !IsBlank(s[0]) {
      assert Lower(s)[1..] == Lower(s[1..]);
      LowerKeepsBlanks(s[1..]);
    }
  }

  lemma SpelledByLower(s: string, word: string)
    requires Lower(s) == word
    ensures Spells(s, word)
  {
  }

  lemma ManagementVerbs(arguments: string)
    requires Tight(arguments)
    ensures ManagesKnowledge(arguments) <==> Manages(arguments)
  {
    var first := arguments[..FirstBlank(arguments)];
    TrimTight(arguments);
    LowerKeepsBlanks(arguments);
    assert Lower(arguments)[..FirstBlank(arguments)] == Lower(first);
    SpelledByLower(first, Lower(first));
    forall verb | Spells(first, verb) ensures verb == Lower(first) {
      LowerSpelled(first, verb);
    }
  }

  /** A question to the knowledge base goes to the model with retrieval forced, and is the last thing it sees; an
      empty one is answered with the usage, and /kb with a verb that would change the base is refused. */
  lemma KnowledgeQuestions(history: seq<Entry>, t: Typing, word: string, budget: nat)
    requires Writes(t, word) && word in {"cann", "kb"}
    ensures var plan, h := Planned(history, Typed(t), budget), Fold(history);
            && plan.forceRetrieval && plan.model == h.model
            && (t.arguments == "" ==> plan.problem == if word == "cann" then CannUsage else KnowledgeUsage)
            && (t.arguments != "" && word == "kb" && Manages(t.arguments) ==> plan.problem == ReadOnlyKnowledge)
            && (t.arguments != "" && (word == "kb" ==> !Manages(t.arguments)) ==> plan.problem == NoProblem)
            && (plan.callModel <==> plan.problem == NoProblem)
            && (plan.callModel ==> plan.messages != [] && plan.messages[|plan.messages| - 1] == Message(User, Typed(t)))
            && (!plan.callModel ==> plan.messages == h.messages)
  {
    KindRead(t, word);
    WordsAreKinds(word, Cann);
    WordsAreKinds(word, Knowledge);
    ManagementVerbs(t.arguments);
    if Planned(history, Typed(t), budget).callModel {
      var k := PromptKeepsInput(history, Typed(t), budget);
    }
  }

  // ----- what is left of it later

  /** What a text contributes to the context of later prompts is the text itself, exactly if it went to the model or
      was a question to the knowledge base that was answered with an error. */
  lemma LaterContext(e: Entry)
    requires !e.assistant && !e.commandReply
    ensures Said(e) == [Message(User, e.text)] <==>
              Prompts(e.text) ||
              (e.text != "" && Parse(e.text).kind in {Cann, Knowledge} && ProblemWith(e.text, DEFAULT_MODEL) != NoProblem)
    ensures Said(e) == [Message(User, e.text)] || Said(e) == []
  {
    assert [Message(User, e.text)] != [];
  }

  lemma FoldMore(entries: seq<Entry>, e: Entry)
    ensures Fold(entries + [e]) == Apply(Fold(entries), e)
  {
    assert (entries + [e])[..|entries|] == entries;
  }

  /** A /new starts the context over when the assistant confirms it, and not before: nothing said earlier is left and
      the model is the default again, unless the confirmation brings a snapshot. */
  lemma ConfirmedNewStartsOver(before: seq<Entry>, ask: Entry, t: Typing, word: string, confirm: Entry)
    requires Writes(t, word) && word in {"new", "reset", "clear"}
    requires ask.text == Typed(t) && !ask.assistant && !ask.commandReply && !ask.hasModel && ask.msgSeq > Fold(before).start
    requires confirm.assistant && confirm.confirmsNew && confirm.commandReply && !confirm.hasContext
    ensures var h := Fold(before);
            && Fold(before + [ask]) == h.(pendingNew := ask.msgSeq)
            && Fold(before + [ask] + [confirm]) ==
                 History(ask.msgSeq, [],
                         if !confirm.hasModel || !confirm.modelChosen then ModelState(false, "", "")
                         else ModelState(true, confirm.model, confirm.provider),
                         ask.msgSeq)
  {
    KindRead(t, word);
    WordsAreKinds(word, New);
    FoldMore(before, ask);
    FoldMore(before + [ask], confirm);
  }

  /** A context start that the assistant reports cuts the context there if it is later than the present one, and a
      model snapshot is taken over as it is, whoever brings it. */
  lemma ReportedState(before: seq<Entry>, e: Entry)
    requires e.commandReply
    ensures var h, h' := Fold(before), Fold(before + [e]);
            && (e.assistant && e.hasContext && e.contextStart > h.start && (e.confirmsNew ==> h.pendingNew <= e.contextStart) ==>
                  h'.start == e.contextStart && h'.messages == [])
            && (e.hasModel ==>
                  h'.model == if e.modelChosen then ModelState(true, e.model, e.provider) else ModelState(false, "", ""))
            && (!e.assistant || (!e.hasContext && !e.confirmsNew) ==> h'.start == h.start && h'.messages == h.messages)
            && (!e.assistant && !e.hasModel ==> h' == h)
  {
    FoldMore(before, e);
  }

  // ----- models

  /** A model is chosen exactly as provider:model. */
  lemma TypedModelIsChosen(m: ModelState, provider: string, model: string)
    requires provider != "" && ':' !in provider && model != "" && model[|model| - 1] != ':'
    requires |provider| + 1 + |model| <= 128 && !HasSpaceOrControl(provider + ":" + model)
    requires !("--global" <= provider + ":" + model)
    ensures ChooseModel(m, provider + ":" + model) == (ModelState(true, model, provider), NoProblem)
  {
    var target := provider + ":" + model;
    assert target[|target| - 1] == model[|model| - 1] && target[0] == provider[0];
    assert !SpaceOrControl(target[0]) && !SpaceOrControl(target[|target| - 1]);
    TrimTight(target);
    ColonAt(provider, model);
    SplitIsChosen(m, target);
  }

  lemma SplitIsChosen(m: ModelState, target: string)
    requires Trim(target) == target && |target| <= 128 && !HasSpaceOrControl(target) && !("--global" <= target)
    requires 0 < FirstColon(target) < |target| - 1 && target[|target| - 1] != ':'
    ensures ChooseModel(m, target) == (ModelState(true, target[FirstColon(target) + 1..], target[..FirstColon(target)]), NoProblem)
  {
    KeywordsHaveNoColon(target);
  }

  lemma KeywordsHaveNoColon(target: string)
    requires ':' in target
    ensures target !in {"", "refresh", "default", "reset"}
  {
  }

  lemma {:induction false} ColonAt(provider: string, model: string)
    requires ':' !in provider
    ensures var target := provider + ":" + model;
            FirstColon(target) == |provider| && target[..|provider|] == provider && target[|provider| + 1..] == model
  {
    var target := provider + ":" + model;
    if provider == "" {
      assert target[0] == ':';
    } else {
      assert target[0] == provider[0] && target[1..] == provider[1..] + ":" + model;
      ColonAt(provider[1..], model);
    }
  }

  /** The other arguments of /model: asking changes nothing, default and reset go back to the default model, and a
      provider with a colon behind it is listed and leaves no model chosen. */
  lemma OtherModelArguments(m: ModelState, provider: string)
    requires provider != "" && ':' !in provider && Tight(provider)
    ensures ChooseModel(m, "") == ChooseModel(m, "refresh") == (m, NoProblem)
    ensures ChooseModel(m, "default") == ChooseModel(m, "reset") == (ModelState(false, "", ""), NoProblem)
    ensures ChooseModel(m, provider + ":") == (ModelState(false, "", provider), NoProblem)
    ensures ChooseModel(m, "--global") == (m, GlobalRefused)
  {
    TrimTight("");
    TrimTight("refresh");
    TrimTight("default");
    TrimTight("reset");
    TrimTight("--global");
    TrimTight(provider + ":");
    assert (provider + ":")[..|provider|] == provider;
  }

  /** Arguments of /model that contain a blank inside, a control character or DEL are refused, unless they are a listing. */
  lemma ControlCharactersRefused(m: ModelState, target: string, i: nat)
    requires Tight(target) && i < |target| && (target[i] as int <= 32 || target[i] as int == 127) && target[|target| - 1] != ':'
    ensures ChooseModel(m, target) == (m, BadModel)
  {
    TrimTight(target);
    assert SpaceOrControl(target[i]);
    assert target !in {"", "refresh", "default", "reset"} by {
      PlainKeywords(target, i);
    }
  }

  lemma PlainKeywords(target: string, i: nat)
    requires i < |target| && (target[i] as int <= 32 || target[i] as int == 127)
    ensures target !in {"", "refresh", "default", "reset"}
  {
  }

  /** The plan counts the messages there are before the budget is applied. */
  lemma ContextIsCounted(history: seq<Entry>, text: string, budget: nat)
    ensures Planned(history, text, budget).contextMessages == |Fold(history).messages| + if Prompts(text) then 1 else 0
    ensures Planned(history, text, budget).start == Fold(history).start
  {
  }
}
