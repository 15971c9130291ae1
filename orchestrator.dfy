/** The drafting service's two entry points (mlend/orchestrator.py): the
    chat turn, which either asks the language model for the next question
    or, once nothing required is missing, tells the user the draft is ready;
    and contract generation, which drafts the precedent's sections one by
    one while reporting progress, then stitches the contract together.
    The language model is a function parameter; the prompt texts it is
    given are replaced by the structured data they are built from. */
module Orchestrator {
  import opened Strings
  import opened Outlines
  import opened Answers
  import Progress
  import PrecedentRepo

  // ---------------------------------------------------------------------
  // Messages
  // ---------------------------------------------------------------------

  datatype Role = SystemRole | UserRole | AssistantRole
  datatype ChatMessage = ChatMessage(role: Role, content: string)

  /** Written in two pieces only to keep the verifier's literal reasoning short. */
  const ReadyMessage: string := "You're ready to generate the contract. " + "Press the Generate button or say \"generate\"."

  /** The model accepts only user and assistant turns; a system turn is sent
      as a user turn (orchestrator.py:67-89). */
  function ModelRole(r: Role): (m: Role)
    ensures m != SystemRole
    ensures r != SystemRole ==> m == r
  {
    match r
    case AssistantRole => AssistantRole
    case _ => UserRole
  }

  /** `_to_anthropic_messages` without the leading context message, which
      this model passes to the model function as data. */
  function ToModelMessages(messages: seq<ChatMessage>): (r: seq<ChatMessage>)
    ensures |r| == |messages|
    ensures forall i :: 0 <= i < |r| ==> r[i].role != SystemRole && r[i].content == messages[i].content
    ensures forall i :: 0 <= i < |r| ==> (r[i].role == AssistantRole <==> messages[i].role == AssistantRole)
  {
    seq(|messages|, i requires 0 <= i < |messages| => ChatMessage(ModelRole(messages[i].role), messages[i].content))
  }

  /** `chat_messages[-max_turns:]`; Python reads `[-0:]` as the whole list. */
  function LastTurns(messages: seq<ChatMessage>, maxTurns: nat): (r: seq<ChatMessage>)
    ensures maxTurns > 0 ==> |r| <= maxTurns
    ensures EndsWith2(messages, r)
  {
    if maxTurns == 0 || |messages| <= maxTurns then messages else messages[|messages| - maxTurns..]
  }

  predicate EndsWith2(messages: seq<ChatMessage>, suffix: seq<ChatMessage>) {
    |suffix| <= |messages| && messages[|messages| - |suffix|..] == suffix
  }

  function RoleName(r: Role): string {
    if r == AssistantRole then "assistant" else "user"
  }

  /** A turn whose content is not blank. */
  predicate Spoken(m: ChatMessage) { Trim(m.content) != [] }

  /** `f"{role}: {content}"` for one turn, with the content trimmed. */
  function HistoryLine(m: ChatMessage): string {
    RoleName(m.role) + ": " + Trim(m.content)
  }

  /** One `role: content` line per turn with non-blank content. */
  function HistoryLines(messages: seq<ChatMessage>): (r: seq<string>)
    ensures |r| <= |messages|
    ensures forall i :: 0 <= i < |r| ==> StartsWith(r[i], "user: ") || StartsWith(r[i], "assistant: ")
  {
    if messages == [] then []
    else
      var content := Trim(messages[0].content);
      var rest := HistoryLines(messages[1..]);
      if content != [] then
        var line := RoleName(messages[0].role) + ": " + content;
        assert StartsWith(line, RoleName(messages[0].role) + ": ") by {
          assert line[..|RoleName(messages[0].role) + ": "|] == RoleName(messages[0].role) + ": ";
        }
        [line] + rest
      else rest
  }

  /** The history lines are exactly the `HistoryLine` of each spoken turn,
      in order: the role, a colon and the trimmed content. */
  lemma {:induction false} HistoryLinesAreSpokenTurns(messages: seq<ChatMessage>)
    ensures HistoryLines(messages) == Map(Filter(messages, Spoken), HistoryLine)
  {
    if messages != [] {
      var m, rest := messages[0], messages[1..];
      HistoryLinesAreSpokenTurns(rest);
      var kept := Filter(rest, Spoken);
      assert Filter(messages, Spoken) == (if Spoken(m) then [m] else []) + kept;
      assert HistoryLines(messages) == (if Spoken(m) then [HistoryLine(m)] else []) + HistoryLines(rest);
      if Spoken(m) {
        MapConcat([m], kept, HistoryLine);
        assert Map([m], HistoryLine) == [HistoryLine(m)];
      }
    }
  }

  /** `_format_chat_history` (orchestrator.py:92-109). */
  function FormatChatHistory(messages: seq<ChatMessage>, maxTurns: nat): string {
    if messages == [] then "" else Join(HistoryLines(LastTurns(messages, maxTurns)), "\n")
  }

  /** The history shows at most `maxTurns` lines, one per recent turn with
      something to say. */
  lemma ChatHistoryBounded(messages: seq<ChatMessage>, maxTurns: nat)
    requires maxTurns > 0
    ensures |HistoryLines(LastTurns(messages, maxTurns))| <= maxTurns
  {
  }

  // ---------------------------------------------------------------------
  // The chat turn (orchestrator.py:507-588)
  // ---------------------------------------------------------------------

  datatype ContractContext = ContractContext(
    contractTypeId: string,
    contractTypeName: string,
    category: Option<string>,
    jurisdiction: Option<string>,
    templateQuestions: seq<Question>,
    formAnswers: AnswerMap,
    chatAnswers: AnswerMap,
    clarifyingQuestions: seq<string>)

  datatype ChatRequest = ChatRequest(draftId: string, context: ContractContext, messages: seq<ChatMessage>)

  datatype ChatResponse = ChatResponse(draftId: string, assistantMessage: string, updatedChatAnswers: AnswerMap)

  /** What the chat prompt is built from: the context message's contents and
      the conversation. */
  datatype ChatPrompt = ChatPrompt(
    contractTypeName: string,
    category: Option<string>,
    jurisdiction: Option<string>,
    clarifying: seq<string>,
    questionKeys: seq<string>,
    answered: seq<string>,
    missing: seq<string>,
    messages: seq<ChatMessage>)

  function QuestionKeys(questions: seq<Question>): (r: seq<string>)
    ensures |r| == |questions| && forall i :: 0 <= i < |r| ==> r[i] == questions[i].key
  {
    seq(|questions|, i requires 0 <= i < |questions| => questions[i].key)
  }

  /** `_should_prepend_welcome`: no assistant turn yet. */
  predicate ShouldPrependWelcome(messages: seq<ChatMessage>) {
    forall i :: 0 <= i < |messages| ==> messages[i].role != AssistantRole
  }

  /** The reply when nothing required is missing: the summary, if one is
      due, then the ready text. */
  function ReadyReply(summary: Option<string>): (r: string)
    ensures EndsWith(r, ReadyMessage)
    ensures summary.None? ==> r == ReadyMessage
    ensures summary.Some? ==> StartsWith(r, summary.value)
  {
    if summary.Some? then
      var r := summary.value + "\n\n" + ReadyMessage;
      assert r[|r| - |ReadyMessage|..] == ReadyMessage;
      assert r[..|summary.value|] == summary.value;
      r
    else ReadyMessage
  }

  /** The answers as the chat turn sees them: form and chat answers merged,
      standard defaults applied, and the answered and missing-required
      lists computed from the result. */
  datatype AnswerView = AnswerView(combined: AnswerMap, defaults: AnswerMap, answered: seq<string>, missing: seq<string>)

  function ViewAnswers(ctx: ContractContext): AnswerView {
    var withDefaults := ApplyStandardDefaults(ctx.templateQuestions, MergeAnswers(ctx.formAnswers, ctx.chatAnswers));
    var state := ComputeAnswerState(ctx.templateQuestions, withDefaults.0);
    AnswerView(withDefaults.0, withDefaults.1, state.0, state.1)
  }

  /** The summary a ready turn shows: none once the flag is set. */
  function DueSummary(ctx: ContractContext, view: AnswerView): Option<string> {
    if Truthy(Lookup(ctx.chatAnswers, ReadySummaryFlag)) then None else BuildReadySummary(view.answered)
  }

  /** What the model is asked with while something required is missing:
      the clarifying questions are those free of standard-clause wording,
      in their order and with any repeats kept. */
  function PromptFor(req: ChatRequest, view: AnswerView): (r: ChatPrompt)
    ensures r.clarifying == Filter(req.context.clarifyingQuestions, IsPlainItem)
    ensures r.answered == view.answered && r.missing == view.missing
    ensures r.messages == ToModelMessages(req.messages) && |r.messages| == |req.messages|
  {
    ChatPrompt(req.context.contractTypeName, req.context.category, req.context.jurisdiction,
               PlainItems(req.context.clarifyingQuestions), QuestionKeys(req.context.templateQuestions),
               view.answered, view.missing, ToModelMessages(req.messages))
  }

  /** `answer_contract_chat`. With nothing required missing the model is not
      called, the summary goes out only while the flag is unset, and the
      flag is set exactly when it goes out; otherwise the model's reply is
      returned, with the welcome in front on the first turn. The updated
      chat answers are the chat answers with the defaults over them, plus
      the flag when it is set. */
  method AnswerContractChat(req: ChatRequest, chatModel: ChatPrompt -> string)
    returns (resp: ChatResponse, ghost calledModel: bool)
    ensures resp.draftId == req.draftId
    ensures calledModel <==> ViewAnswers(req.context).missing != []
    ensures ViewAnswers(req.context).missing == [] ==>
              && resp.assistantMessage == ReadyReply(DueSummary(req.context, ViewAnswers(req.context)))
              && resp.updatedChatAnswers ==
                   var kept := req.context.chatAnswers + ViewAnswers(req.context).defaults;
                   if DueSummary(req.context, ViewAnswers(req.context)).Some?
                   then kept[ReadySummaryFlag := Bool(true)] else kept
    ensures ViewAnswers(req.context).missing != [] ==>
              && resp.updatedChatAnswers == req.context.chatAnswers + ViewAnswers(req.context).defaults
              && var reply := chatModel(PromptFor(req, ViewAnswers(req.context)));
                 resp.assistantMessage == if ShouldPrependWelcome(req.messages) then PrependWelcomeIfMissing(reply) else reply
  {
    var view := ViewAnswers(req.context);
    var updated := req.context.chatAnswers + view.defaults;

    if view.missing == [] {
      calledModel := false;
      var summary := DueSummary(req.context, view);
      if summary.Some? {
        updated := updated[ReadySummaryFlag := Bool(true)];
      }
      resp := ChatResponse(req.draftId, ReadyReply(summary), updated);
      return;
    }

    calledModel := true;
    var reply := chatModel(PromptFor(req, view));
    if ShouldPrependWelcome(req.messages) {
      reply := PrependWelcomeIfMissing(reply);
    }
    resp := ChatResponse(req.draftId, reply, updated);
  }

  /** A ready turn always ends with the ready text, and once the flag is set
      it is exactly the ready text and the flag stays set. */
  lemma ReadyTurnShape(ctx: ContractContext)
    requires ViewAnswers(ctx).missing == []
    ensures EndsWith(ReadyReply(DueSummary(ctx, ViewAnswers(ctx))), ReadyMessage)
    ensures Truthy(Lookup(ctx.chatAnswers, ReadySummaryFlag)) ==> ReadyReply(DueSummary(ctx, ViewAnswers(ctx))) == ReadyMessage
  {
  }

  /** Once a ready turn has sent the summary, the next turn, given the chat
      answers that turn returned, shows no summary; and if it is ready too,
      its reply is exactly the ready text. `updated` is the
      `updatedChatAnswers` that `AnswerContractChat` promises for a turn
      that sends the summary. */
  lemma SummarySentAtMostOnce(ctx: ContractContext, updated: AnswerMap)
    requires ViewAnswers(ctx).missing == [] && DueSummary(ctx, ViewAnswers(ctx)).Some?
    requires updated == (ctx.chatAnswers + ViewAnswers(ctx).defaults)[ReadySummaryFlag := Bool(true)]
    ensures var next := ctx.(chatAnswers := updated);
            && DueSummary(next, ViewAnswers(next)) == None
            && (ViewAnswers(next).missing == [] ==> ReadyReply(DueSummary(next, ViewAnswers(next))) == ReadyMessage)
  {
    var next := ctx.(chatAnswers := updated);
    assert Lookup(next.chatAnswers, ReadySummaryFlag) == Bool(true);
  }

  // ---------------------------------------------------------------------
  // Outline resolution (orchestrator.py:334-353)
  // ---------------------------------------------------------------------

  /** `_require_precedent_outline` after the lookup: the parsed outline, or
      the error it raises when there is no outline or no section. */
  function RequireOutline(raw: Option<RawOutline>, contractTypeId: string, contractTypeName: string): (r: Result<PrecedentOutline>)
    ensures raw.None? ==> r == Failure("No precedent outline found for "
                                        + FormatContractLabel(Some(contractTypeId), Some(contractTypeName)) + ".")
    ensures raw.Some? && ParsePrecedentOutline(raw.value).sections == [] ==>
              r == Failure("No precedent sections found for "
                           + FormatContractLabel(Some(contractTypeId), Some(contractTypeName)) + ".")
    ensures r.Success? <==> raw.Some? && ParsePrecedentOutline(raw.value).sections != []
    ensures r.Success? ==> r.value == ParsePrecedentOutline(raw.value) && |r.value.sections| > 0
  {
    var tag := FormatContractLabel(Some(contractTypeId), Some(contractTypeName));
    if raw.None? then Failure("No precedent outline found for " + tag + ".")
    else
      var parsed := ParsePrecedentOutline(raw.value);
      if parsed.sections == [] then Failure("No precedent sections found for " + tag + ".")
      else Success(parsed)
  }

  /** What the repository hands back for this contract type. */
  function Resolved(lookup: Option<PrecedentRepo.Lookup>, contractTypeId: string, contractTypeName: string,
                    dbOutline: Option<RawOutline>): Option<RawOutline> {
    if lookup.Some? then lookup.value(Some(contractTypeId), Some(contractTypeName)) else dbOutline
  }

  /** `_require_precedent_outline`, asking the repository. */
  method RequirePrecedentOutline(repo: PrecedentRepo.PrecedentRepository, contractTypeId: string,
                                 contractTypeName: string, dbOutline: Option<RawOutline>)
    returns (r: Result<PrecedentOutline>)
    ensures r == RequireOutline(Resolved(repo.lookup, contractTypeId, contractTypeName, dbOutline),
                                contractTypeId, contractTypeName)
  {
    var outline := repo.GetPrecedentOutline(Some(contractTypeId), Some(contractTypeName), dbOutline);
    if outline.None? {
      var tag := FormatContractLabel(Some(contractTypeId), Some(contractTypeName));
      return Failure("No precedent outline found for " + tag + ".");
    }
    var parsed := ParsePrecedentOutline(outline.value);
    if parsed.sections == [] {
      var tag := FormatContractLabel(Some(contractTypeId), Some(contractTypeName));
      return Failure("No precedent sections found for " + tag + ".");
    }
    return Success(parsed);
  }

  // ---------------------------------------------------------------------
  // Drafting the sections (orchestrator.py:421-472)
  // ---------------------------------------------------------------------

  /** What the section prompt's shared context is built from
      (orchestrator.py:356-397). */
  datatype SectionContext = SectionContext(
    contractTypeName: string,
    category: Option<string>,
    jurisdiction: Option<string>,
    questions: seq<Question>,
    combinedAnswers: AnswerMap,
    chatHistory: string,
    precedentTitle: Option<string>,
    precedentFrontMatter: seq<string>,
    precedentPlaceholders: seq<string>)

  /** The usage a model call reports; each entry may be missing. */
  datatype Usage = Usage(inputTokens: Option<int>, outputTokens: Option<int>, model: Option<string>)

  datatype UsageTotals = UsageTotals(inputTokens: int, outputTokens: int, model: Option<string>)

  /** The section-drafting model call: the text and usage, or the error it raises. */
  type SectionWriter = (SectionContext, Section) -> Result<(string, Usage)>

  /** `usage.get(k) or 0`. */
  function OrZero(x: Option<int>): int {
    if x.Some? then x.value else 0
  }

  /** `usage.get("model") or usage_model`: a reported non-empty model id
      replaces the one kept so far. */
  function KeepModel(reported: Option<string>, kept: Option<string>): (r: Option<string>)
    ensures reported.Some? && reported.value != [] ==> r == reported
    ensures (reported.None? || reported.value == []) ==> r == kept
  {
    if reported.Some? && reported.value != [] then reported else kept
  }

  /** `_progress_label`: the heading is not used. */
  function ProgressLabel(index: nat, total: nat): string {
    "Drafting Section " + NatToString(index) + " (" + NatToString(index) + " of " + NatToString(total) + ")"
  }

  /** The texts and usage totals drafted so far. */
  datatype Drafted = Drafted(texts: seq<string>, totals: UsageTotals)

  /** Nothing drafted yet. */
  const NoDraft: Drafted := Drafted([], UsageTotals(0, 0, None))

  /** One section's contribution after a successful call: the text with
      its heading ensured is kept when non-empty, and the usage is added to
      the totals. */
  function AddSection(drafted: Drafted, out: (string, Usage), section: Section): Drafted {
    var text := EnsureSectionHeading(out.0, section.heading);
    var usage := out.1;
    Drafted(drafted.texts + (if text != [] then [text] else []),
            UsageTotals(drafted.totals.inputTokens + OrZero(usage.inputTokens),
                        drafted.totals.outputTokens + OrZero(usage.outputTokens),
                        KeepModel(usage.model, drafted.totals.model)))
  }

  /** Drafting sections `i..` onto what is drafted so far: the first failing
      call ends the drafting with its error. */
  function DraftFrom(sections: seq<Section>, ctx: SectionContext, writer: SectionWriter, i: nat, acc: Drafted)
    : Result<Drafted>
    requires i <= |sections|
    decreases |sections| - i
  {
    if i == |sections| then Success(acc)
    else
      var out := writer(ctx, sections[i]);
      if out.Failure? then Failure(out.error)
      else DraftFrom(sections, ctx, writer, i + 1, AddSection(acc, out.value, sections[i]))
  }

  /** `_draft_sections`' outcome: the drafting of every section, or the error
      of the first call that fails. */
  function DraftAll(sections: seq<Section>, ctx: SectionContext, writer: SectionWriter): Result<Drafted> {
    DraftFrom(sections, ctx, writer, 0, NoDraft)
  }

  /** The first section at or after `i` whose call fails, or the number of
      sections when none does. */
  function FailingFrom(sections: seq<Section>, ctx: SectionContext, writer: SectionWriter, i: nat): (k: nat)
    requires i <= |sections|
    ensures i <= k <= |sections|
    ensures forall j :: i <= j < k ==> writer(ctx, sections[j]).Success?
    ensures k < |sections| ==> writer(ctx, sections[k]).Failure?
    decreases |sections| - i
  {
    if i == |sections| || writer(ctx, sections[i]).Failure? then i
    else FailingFrom(sections, ctx, writer, i + 1)
  }

  /** The index of the first section whose model call fails, or the number
      of sections when none does. */
  function FailureIndex(sections: seq<Section>, ctx: SectionContext, writer: SectionWriter): nat {
    FailingFrom(sections, ctx, writer, 0)
  }

  /** Drafting from `i` fails exactly when a call from `i` on fails, and
      then with the error of the first such call. */
  lemma {:induction false} DraftFromFailure(sections: seq<Section>, ctx: SectionContext, writer: SectionWriter,
                                            i: nat, acc: Drafted)
    requires i <= |sections|
    ensures var k := FailingFrom(sections, ctx, writer, i);
            && (DraftFrom(sections, ctx, writer, i, acc).Failure? <==> k < |sections|)
            && (k < |sections| ==>
                  DraftFrom(sections, ctx, writer, i, acc) == Failure(writer(ctx, sections[k]).error))
    decreases |sections| - i
  {
    if i < |sections| {
      var out := writer(ctx, sections[i]);
      if out.Success? {
        DraftFromFailure(sections, ctx, writer, i + 1, AddSection(acc, out.value, sections[i]));
      }
    }
  }

  /** `_draft_sections` fails exactly when some section's call fails, with
      the error of the first one; every earlier call succeeded. */
  lemma DraftAllFailure(sections: seq<Section>, ctx: SectionContext, writer: SectionWriter)
    ensures var k := FailureIndex(sections, ctx, writer);
            && (DraftAll(sections, ctx, writer).Failure? <==> k < |sections|)
            && (k < |sections| ==> DraftAll(sections, ctx, writer) == Failure(writer(ctx, sections[k]).error))
            && (forall j :: 0 <= j < k ==> writer(ctx, sections[j]).Success?)
  {
    DraftFromFailure(sections, ctx, writer, 0, NoDraft);
  }

  /** Section `j`'s text with its heading ensured, when its call succeeds. */
  function ReplyText(sections: seq<Section>, ctx: SectionContext, writer: SectionWriter, j: nat): string
    requires j < |sections|
  {
    var out := writer(ctx, sections[j]);
    if out.Success? then EnsureSectionHeading(out.value.0, sections[j].heading) else []
  }

  /** The non-empty texts of sections `i..`, in order. */
  function KeptFrom(sections: seq<Section>, ctx: SectionContext, writer: SectionWriter, i: nat): seq<string>
    requires i <= |sections|
    decreases |sections| - i
  {
    if i == |sections| then []
    else
      var text := ReplyText(sections, ctx, writer, i);
      (if text != [] then [text] else []) + KeptFrom(sections, ctx, writer, i + 1)
  }

  /** A count a successful call reports, read as zero when missing. */
  function Reported(out: Result<(string, Usage)>, input: bool): int {
    if out.Failure? then 0
    else if input then OrZero(out.value.1.inputTokens)
    else OrZero(out.value.1.outputTokens)
  }

  /** The input (`input`) or output token counts of sections `i..` added up. */
  function TokensFrom(sections: seq<Section>, ctx: SectionContext, writer: SectionWriter, i: nat, input: bool): int
    requires i <= |sections|
    decreases |sections| - i
  {
    if i == |sections| then 0
    else Reported(writer(ctx, sections[i]), input) + TokensFrom(sections, ctx, writer, i + 1, input)
  }

  predicate ReportsModel(out: Result<(string, Usage)>) {
    out.Success? && out.value.1.model.Some? && out.value.1.model.value != []
  }

  /** The model id of the last call from `i` on that reports one. */
  function LastModelFrom(sections: seq<Section>, ctx: SectionContext, writer: SectionWriter, i: nat): Option<string>
    requires i <= |sections|
    decreases |sections| - i
  {
    if i == |sections| then None
    else
      var later := LastModelFrom(sections, ctx, writer, i + 1);
      if later.Some? then later
      else if ReportsModel(writer(ctx, sections[i])) then writer(ctx, sections[i]).value.1.model
      else None
  }

  /** A drafting that succeeds from `i` adds the kept texts of sections
      `i..`, in order. */
  lemma {:induction false} DraftFromTexts(sections: seq<Section>, ctx: SectionContext, writer: SectionWriter,
                                          i: nat, acc: Drafted)
    requires i <= |sections|
    ensures var r := DraftFrom(sections, ctx, writer, i, acc);
            r.Success? ==> r.value.texts == acc.texts + KeptFrom(sections, ctx, writer, i)
    decreases |sections| - i
  {
    if i < |sections| {
      var out := writer(ctx, sections[i]);
      if out.Success? {
        var next := AddSection(acc, out.value, sections[i]);
        DraftFromTexts(sections, ctx, writer, i + 1, next);
        var text := ReplyText(sections, ctx, writer, i);
        assert next.texts == acc.texts + (if text != [] then [text] else []);
      }
    }
  }

  /** A drafting that succeeds from `i` adds the token counts of sections
      `i..`, and ends with the model id of the last call that reports one,
      or the one it started with. */
  lemma {:induction false} DraftFromTotals(sections: seq<Section>, ctx: SectionContext, writer: SectionWriter,
                                           i: nat, acc: Drafted)
    requires i <= |sections|
    ensures var r := DraftFrom(sections, ctx, writer, i, acc);
            var last := LastModelFrom(sections, ctx, writer, i);
            r.Success? ==>
              && r.value.totals.inputTokens == acc.totals.inputTokens + TokensFrom(sections, ctx, writer, i, true)
              && r.value.totals.outputTokens == acc.totals.outputTokens + TokensFrom(sections, ctx, writer, i, false)
              && r.value.totals.model == (if last.Some? then last else acc.totals.model)
    decreases |sections| - i
  {
    if i < |sections| {
      var out := writer(ctx, sections[i]);
      if out.Success? {
        DraftFromTotals(sections, ctx, writer, i + 1, AddSection(acc, out.value, sections[i]));
      }
    }
  }

  predicate HeadingsNonBlank(sections: seq<Section>) {
    forall i :: 0 <= i < |sections| ==> Trim(sections[i].heading) != []
  }

  /** The text opens with the trimmed heading, compared case-insensitively
      (`StartsWithIgnoringCaseIff` relates this to lower-casing both). */
  predicate OpensWith(text: string, heading: string) {
    StartsWithIgnoringCase(text, Trim(heading))
  }

  /** The kept texts are non-empty and at most one per section. */
  lemma {:induction false} KeptFromBounds(sections: seq<Section>, ctx: SectionContext, writer: SectionWriter, i: nat)
    requires i <= |sections|
    ensures var kept := KeptFrom(sections, ctx, writer, i);
            && |kept| <= |sections| - i
            && (forall j :: 0 <= j < |kept| ==> kept[j] != [])
    decreases |sections| - i
  {
    if i < |sections| {
      KeptFromBounds(sections, ctx, writer, i + 1);
      var text := ReplyText(sections, ctx, writer, i);
      var rest := KeptFrom(sections, ctx, writer, i + 1);
      assert KeptFrom(sections, ctx, writer, i) == (if text != [] then [text] else []) + rest;
    }
  }

  /** A section whose call succeeds and whose heading is non-blank gives a
      text that opens with that heading. */
  lemma ReplyTextOpens(sections: seq<Section>, ctx: SectionContext, writer: SectionWriter, i: nat)
    requires i < |sections| && writer(ctx, sections[i]).Success? && Trim(sections[i].heading) != []
    ensures ReplyText(sections, ctx, writer, i) != []
    ensures OpensWith(ReplyText(sections, ctx, writer, i), sections[i].heading)
  {
    var out := writer(ctx, sections[i]);
    EnsureSectionHeadingShape(out.value.0, sections[i].heading);
    StartsWithIgnoringCaseIff(ReplyText(sections, ctx, writer, i), Trim(sections[i].heading));
  }

  /** The texts of sections `i..`, one per section, empty for a failed
      call. */
  function ReplyTexts(sections: seq<Section>, ctx: SectionContext, writer: SectionWriter, i: nat): (r: seq<string>)
    requires i <= |sections|
    ensures |r| == |sections| - i
    decreases |sections| - i
  {
    if i == |sections| then []
    else [ReplyText(sections, ctx, writer, i)] + ReplyTexts(sections, ctx, writer, i + 1)
  }

  /** Text `j` of `ReplyTexts(.., i)` is the text of section `i + j`. */
  lemma {:induction false} ReplyTextsAt(sections: seq<Section>, ctx: SectionContext, writer: SectionWriter, i: nat, j: nat)
    requires i + j < |sections|
    ensures ReplyTexts(sections, ctx, writer, i)[j] == ReplyText(sections, ctx, writer, i + j)
    decreases j
  {
    if j > 0 {
      ReplyTextsAt(sections, ctx, writer, i + 1, j - 1);
    }
  }

  /** When every section from `i` on gives a non-empty text, every text is
      kept. */
  lemma {:induction false} KeptFromExact(sections: seq<Section>, ctx: SectionContext, writer: SectionWriter, i: nat)
    requires i <= |sections|
    requires forall j :: i <= j < |sections| ==> ReplyText(sections, ctx, writer, j) != []
    ensures KeptFrom(sections, ctx, writer, i) == ReplyTexts(sections, ctx, writer, i)
    decreases |sections| - i
  {
    if i < |sections| {
      KeptFromExact(sections, ctx, writer, i + 1);
      assert ReplyText(sections, ctx, writer, i) != [];
    }
  }

  /** The drafted texts are non-empty and at most one per section; when
      every heading is non-blank each section gives exactly one text, in
      order, its reply with the heading ensured, opening with the heading. */
  lemma DraftedTexts(sections: seq<Section>, ctx: SectionContext, writer: SectionWriter)
    ensures var r := DraftAll(sections, ctx, writer);
            r.Success? ==>
              && |r.value.texts| <= |sections|
              && (forall j :: 0 <= j < |r.value.texts| ==> r.value.texts[j] != [])
    ensures var r := DraftAll(sections, ctx, writer);
            r.Success? && HeadingsNonBlank(sections) ==>
              && |r.value.texts| == |sections|
              && forall j :: 0 <= j < |sections| ==>
                   r.value.texts[j] == ReplyText(sections, ctx, writer, j)
                   && OpensWith(r.value.texts[j], sections[j].heading)
  {
    DraftFromTexts(sections, ctx, writer, 0, NoDraft);
    KeptFromBounds(sections, ctx, writer, 0);
    var kept := KeptFrom(sections, ctx, writer, 0);
    assert NoDraft.texts + kept == kept;
    if DraftAll(sections, ctx, writer).Success? && HeadingsNonBlank(sections) {
      DraftFromFailure(sections, ctx, writer, 0, NoDraft);
      forall j | 0 <= j < |sections|
        ensures ReplyText(sections, ctx, writer, j) != []
        ensures OpensWith(ReplyText(sections, ctx, writer, j), sections[j].heading)
      {
        ReplyTextOpens(sections, ctx, writer, j);
      }
      KeptFromExact(sections, ctx, writer, 0);
      forall j | 0 <= j < |sections|
        ensures KeptFrom(sections, ctx, writer, 0)[j] == ReplyText(sections, ctx, writer, j)
      {
        ReplyTextsAt(sections, ctx, writer, 0, j);
      }
    }
  }

  /** The token totals add up every call's counts, and the model id is that
      of the last call that reports one. */
  lemma DraftedTotals(sections: seq<Section>, ctx: SectionContext, writer: SectionWriter)
    ensures var r := DraftAll(sections, ctx, writer);
            r.Success? ==>
              && r.value.totals.inputTokens == TokensFrom(sections, ctx, writer, 0, true)
              && r.value.totals.outputTokens == TokensFrom(sections, ctx, writer, 0, false)
              && r.value.totals.model == LastModelFrom(sections, ctx, writer, 0)
  {
    DraftFromTotals(sections, ctx, writer, 0, NoDraft);
  }

  /** The draft's record after the first `k` sections are drafted. */
  function ProgressAfter(prev: Option<Progress.ProgressRecord>, draftId: string, total: nat, k: nat, now: int)
    : Option<Progress.ProgressRecord>
  {
    if k == 0 then prev
    else
      var tag := Some(ProgressLabel(k, total));
      var before := Progress.UpdateRecord(ProgressAfter(prev, draftId, total, k - 1, now), draftId, k - 1, Some(total), tag, now);
      Some(Progress.UpdateRecord(Some(before), draftId, k, Some(total), tag, now))
  }

  /** After `k > 0` sections the record is running, counts `k` of `total`
      sections done, names section `k` as the current step, and keeps its
      percentage below the running cap. */
  lemma ProgressAfterShape(prev: Option<Progress.ProgressRecord>, draftId: string, total: nat, k: nat, now: int)
    requires k > 0
    ensures var r := ProgressAfter(prev, draftId, total, k, now);
            && r.Some? && r.value.status == Progress.Running
            && r.value.completedSections == Progress.Has(k)
            && r.value.totalSections == Progress.Has(total as int)
            && r.value.currentStep == Progress.Has(Some(ProgressLabel(k, total)))
            && r.value.percent.Has? && r.value.percent.value <= Progress.RunningCap
  {
  }

  /** The draft's record when the call for section `k + 1` fails: the update
      before that call has been made. */
  function ProgressAtFailure(prev: Option<Progress.ProgressRecord>, draftId: string, total: nat, k: nat, now: int)
    : Progress.ProgressRecord
  {
    Progress.UpdateRecord(ProgressAfter(prev, draftId, total, k, now), draftId, k, Some(total),
                          Some(ProgressLabel(k + 1, total)), now)
  }

  /** The records after `k` sections: the draft's entry is replaced once at
      least one section is drafted. */
  function RecordsAfter(base: map<string, Progress.ProgressRecord>, prev: Option<Progress.ProgressRecord>,
                        draftId: string, total: nat, k: nat, now: int): map<string, Progress.ProgressRecord>
  {
    if k == 0 then base else base[draftId := ProgressAfter(prev, draftId, total, k, now).value]
  }

  /** Drafting replaces only the draft's own entry. */
  lemma RecordsAfterFrame(base: map<string, Progress.ProgressRecord>, prev: Option<Progress.ProgressRecord>,
                          draftId: string, total: nat, k: nat, now: int)
    requires draftId in base
    ensures var after := RecordsAfter(base, prev, draftId, total, k, now);
            draftId in after && after == base[draftId := after[draftId]]
  {
    if k > 0 {
      ProgressAfterShape(prev, draftId, total, k, now);
    }
  }

  /** The records after one more section: the draft's entry is the record
      after both of that section's reports. */
  lemma RecordsStep(base: map<string, Progress.ProgressRecord>, prev: Option<Progress.ProgressRecord>,
                    draftId: string, total: nat, i: nat, now: int)
    ensures var tag := Some(ProgressLabel(i + 1, total));
            var started := Progress.UpdateRecord(ProgressAfter(prev, draftId, total, i, now), draftId, i, Some(total), tag, now);
            var next := Progress.UpdateRecord(Some(started), draftId, i + 1, Some(total), tag, now);
            && ProgressAfter(prev, draftId, total, i + 1, now) == Some(next)
            && RecordsAfter(base, prev, draftId, total, i, now)[draftId := next]
               == RecordsAfter(base, prev, draftId, total, i + 1, now)
            && RecordsAfter(base, prev, draftId, total, i, now)[draftId := started] == base[draftId := started]
  {
  }

  /** One section's turn in `_draft_sections`: report the count before the
      call, call the model, and, when the call succeeds, report the count
      after it. Stated against the records before the first section. */
  method DraftOne(store: Progress.ProgressStore, draftId: string, i: nat, total: nat, section: Section,
                  ctx: SectionContext, writer: SectionWriter, now: int,
                  ghost base: map<string, Progress.ProgressRecord>, ghost prev: Option<Progress.ProgressRecord>)
    returns (out: Result<(string, Usage)>)
    requires store.Valid()
    requires prev == (if draftId in base then Some(base[draftId]) else None)
    requires store.records == RecordsAfter(base, prev, draftId, total, i, now)
    modifies store
    ensures store.Valid()
    ensures out == writer(ctx, section)
    ensures out.Failure? ==> store.records == base[draftId := ProgressAtFailure(prev, draftId, total, i, now)]
    ensures out.Success? ==> store.records == RecordsAfter(base, prev, draftId, total, i + 1, now)
  {
    RecordsStep(base, prev, draftId, total, i, now);
    assert store.Lookup(draftId) == ProgressAfter(prev, draftId, total, i, now);
    var tag := Some(ProgressLabel(i + 1, total));
    store.Update(draftId, i, Some(total), tag, now);
    out := writer(ctx, section);
    if out.Success? {
      store.Update(draftId, i + 1, Some(total), tag, now);
    }
  }

  /** `_draft_sections`: for each section in order, report progress, call
      the model, ensure the heading, keep non-empty texts, add up the usage,
      and report progress again. A failing call ends the loop and raises. */
  method DraftSections(store: Progress.ProgressStore, draftId: string, sections: seq<Section>,
                       ctx: SectionContext, writer: SectionWriter, now: int)
    returns (r: Result<Drafted>)
    requires store.Valid()
    modifies store
    ensures store.Valid()
    ensures r == DraftAll(sections, ctx, writer)
    ensures FailureIndex(sections, ctx, writer) == |sections| ==>
              store.records == RecordsAfter(old(store.records), old(store.Lookup(draftId)), draftId,
                                            |sections|, |sections|, now)
    ensures var k := FailureIndex(sections, ctx, writer);
            k < |sections| ==>
              store.records == old(store.records)[draftId :=
                ProgressAtFailure(old(store.Lookup(draftId)), draftId, |sections|, k, now)]
  {
    ghost var prev := store.Lookup(draftId);
    var drafted := NoDraft;
    var total := |sections|;
    var i := 0;
    while i < total
      invariant 0 <= i <= total
      invariant store.Valid()
      invariant DraftAll(sections, ctx, writer) == DraftFrom(sections, ctx, writer, i, drafted)
      invariant FailureIndex(sections, ctx, writer) == FailingFrom(sections, ctx, writer, i)
      invariant store.records == RecordsAfter(old(store.records), prev, draftId, total, i, now)
    {
      var section := sections[i];
      var out := DraftOne(store, draftId, i, total, section, ctx, writer, now, old(store.records), prev);
      if out.Failure? {
        return Failure(out.error);
      }
      drafted := AddSection(drafted, out.value, section);
      i := i + 1;
    }
    r := Success(drafted);
  }

  // ---------------------------------------------------------------------
  // Stitching (orchestrator.py:475-490)
  // ---------------------------------------------------------------------

  /** The body of the contract: the trimmed title when non-blank, the front
      matter, then the sections, non-empty parts joined by blank lines. */
  function StitchedBody(contractTitle: string, frontMatter: seq<string>, sections: seq<string>): string {
    var title := Trim(contractTitle);
    var parts := (if title != [] then [title] else []) + frontMatter + sections;
    Trim(Join(NonEmptyParts(parts), "\n\n"))
  }

  /** `_stitch_contract`: the body, a blank line and the disclaimer.
      The disclaimer text lives in the prompts module, which is not part of
      this model, so it is a parameter. */
  function StitchContract(contractTitle: string, frontMatter: seq<string>, sections: seq<string>, disclaimer: string)
    : (r: string)
    ensures EndsWith(r, "\n\n" + disclaimer)
    ensures StartsWith(r, StitchedBody(contractTitle, frontMatter, sections) + "\n\n")
  {
    var body := StitchedBody(contractTitle, frontMatter, sections);
    var r := body + "\n\n" + disclaimer;
    assert r[|r| - |"\n\n" + disclaimer|..] == "\n\n" + disclaimer;
    assert r[..|body + "\n\n"|] == body + "\n\n";
    r
  }

  /** The body keeps every non-empty part in place: the trimmed title when
      non-blank, then each non-empty front-matter line in order, then each
      non-empty section in order, separated by blank lines. */
  lemma StitchKeepsEveryPart(contractTitle: string, frontMatter: seq<string>, sections: seq<string>)
    ensures var title := Trim(contractTitle);
            StitchedBody(contractTitle, frontMatter, sections) ==
            Trim(Join((if title != [] then [title] else []) + Filter(frontMatter, NonEmptyText)
                      + Filter(sections, NonEmptyText), "\n\n"))
  {
    var title := Trim(contractTitle);
    var head := if title != [] then [title] else [];
    FilterConcat(head + frontMatter, sections, NonEmptyText);
    FilterConcat(head, frontMatter, NonEmptyText);
    assert Filter(head, NonEmptyText) == head;
  }

  /** A non-blank title opens the stitched contract. */
  lemma StitchKeepsTitle(contractTitle: string, frontMatter: seq<string>, sections: seq<string>, disclaimer: string)
    requires Trim(contractTitle) != []
    ensures StartsWith(StitchContract(contractTitle, frontMatter, sections, disclaimer), Trim(contractTitle))
  {
    var title := Trim(contractTitle);
    var parts := [title] + frontMatter + sections;
    var kept := NonEmptyParts(parts);
    assert kept != [] && kept[0] == title by {
      assert parts[0] == title;
      assert kept == [title] + NonEmptyParts(parts[1..]);
    }
    var joined := Join(kept, "\n\n");
    JoinOpensWithFirst(kept, "\n\n");
    TrimKeepsPrefix(joined, title);
    var body := StitchedBody(contractTitle, frontMatter, sections);
    var r := StitchContract(contractTitle, frontMatter, sections, disclaimer);
    assert r[..|title|] == body[..|title|];
  }

  // ---------------------------------------------------------------------
  // Contract generation (orchestrator.py:591-659)
  // ---------------------------------------------------------------------

  /** A generation request, with the optional outline fetched beforehand. */
  datatype GenerateRequest = GenerateRequest(
    draftId: string,
    context: ContractContext,
    messages: seq<ChatMessage>,
    precedentOutline: Option<RawOutline>)

  /** `(outline title or contract type name or "Contract").strip().upper()`:
      the outline's title wins over the type name, and with neither the
      title is "CONTRACT"; the result has no lower-case letter. */
  function ContractTitle(outlineTitle: Option<string>, contractTypeName: string): (r: string)
    ensures outlineTitle.Some? && outlineTitle.value != [] ==> r == Upper(Trim(outlineTitle.value))
    ensures (outlineTitle.None? || outlineTitle.value == []) && contractTypeName != [] ==> r == Upper(Trim(contractTypeName))
    ensures (outlineTitle.None? || outlineTitle.value == []) && contractTypeName == [] ==> r == "CONTRACT"
    ensures forall i :: 0 <= i < |r| ==> !IsLower(r[i])
  {
    if outlineTitle.Some? && outlineTitle.value != [] then Upper(Trim(outlineTitle.value))
    else if contractTypeName != [] then Upper(Trim(contractTypeName))
    else DefaultTitle(); "CONTRACT"
  }

  lemma DefaultTitle()
    ensures Upper(Trim("Contract")) == "CONTRACT"
  {
    TrimOfUnpadded("Contract");
    var u := Upper("Contract");
    assert u[0] == 'C' && u[1] == 'O' && u[2] == 'N' && u[3] == 'T';
    assert u[4] == 'R' && u[5] == 'A' && u[6] == 'C' && u[7] == 'T';
  }

  const StartingStep: string := "Starting generation"
  const ReadyStep: string := "Contract ready"

  /** What the section prompts share, built from the request and the outline. */
  function SectionContextFor(req: GenerateRequest, outline: PrecedentOutline): SectionContext {
    var ctx := req.context;
    var combined := ApplyStandardDefaults(ctx.templateQuestions, MergeAnswers(ctx.formAnswers, ctx.chatAnswers)).0;
    SectionContext(ctx.contractTypeName, ctx.category, ctx.jurisdiction, ctx.templateQuestions, combined,
                   FormatChatHistory(req.messages, 12), outline.title, outline.frontMatter, outline.placeholders)
  }

  /** The outcome of `generate_contract`: the stitched contract, or the error
      that was raised. */
  function GenerateOutcome(lookup: Option<PrecedentRepo.Lookup>, req: GenerateRequest, writer: SectionWriter,
                           disclaimer: string): Result<string>
  {
    var outline := ResolvedOutline(lookup, req);
    if outline.Failure? then Failure(outline.error) else DraftOutcome(req, outline.value, writer, disclaimer)
  }

  /** The outline a generation request drafts from, or the error raised
      when none resolves. */
  function ResolvedOutline(lookup: Option<PrecedentRepo.Lookup>, req: GenerateRequest): Result<PrecedentOutline> {
    RequireOutline(Resolved(lookup, req.context.contractTypeId, req.context.contractTypeName, req.precedentOutline),
                   req.context.contractTypeId, req.context.contractTypeName)
  }

  /** The outcome once the outline is resolved: the drafting error, or the
      stitched contract. */
  function DraftOutcome(req: GenerateRequest, outline: PrecedentOutline, writer: SectionWriter,
                        disclaimer: string): Result<string>
  {
    var drafted := DraftAll(outline.sections, SectionContextFor(req, outline), writer);
    if drafted.Failure? then Failure(drafted.error)
    else Success(StitchContract(ContractTitle(outline.title, req.context.contractTypeName),
                                outline.frontMatter, drafted.value.texts, disclaimer))
  }

  /** A successful generation is a stitched contract: it opens with the
      upper-cased title when that is non-blank and ends with the disclaimer;
      it fails, with the outline error, whenever no section can be resolved. */
  lemma GenerateOutcomeShape(lookup: Option<PrecedentRepo.Lookup>, req: GenerateRequest, writer: SectionWriter,
                             disclaimer: string)
    ensures var raw := Resolved(lookup, req.context.contractTypeId, req.context.contractTypeName, req.precedentOutline);
            (raw.None? || ParsePrecedentOutline(raw.value).sections == []) ==>
              GenerateOutcome(lookup, req, writer, disclaimer).Failure?
    ensures GenerateOutcome(lookup, req, writer, disclaimer).Success? ==>
              EndsWith(GenerateOutcome(lookup, req, writer, disclaimer).value, "\n\n" + disclaimer)
  {
  }

  /** `generate_contract`, reading the optional outline from the request.
      The progress record is started once the outline is resolved, advanced
      section by section, and completed only after stitching; any error is
      recorded with `fail_progress` and raised again. Only the draft's own
      record changes. */
  method GenerateContract(store: Progress.ProgressStore, repo: PrecedentRepo.PrecedentRepository,
                          req: GenerateRequest, writer: SectionWriter, disclaimer: string, now: int)
    returns (r: Result<string>)
    requires store.Valid()
    modifies store
    ensures store.Valid()
    ensures r == GenerateOutcome(repo.lookup, req, writer, disclaimer)
    ensures req.draftId in store.records
    ensures store.records == old(store.records)[req.draftId := store.records[req.draftId]]
    ensures r.Failure? ==> store.records[req.draftId].status == Progress.Failed
                           && store.records[req.draftId].error == Progress.Has(Some(r.error))
    ensures r.Success? ==> store.records[req.draftId].status == Progress.Completed
                           && store.records[req.draftId].percent == Progress.Has(100)
                           && store.records[req.draftId].currentStep == Progress.Has(Some(ReadyStep))
    ensures var outline := ResolvedOutline(repo.lookup, req);
            r.Success? ==> store.records[req.draftId].completedSections == Progress.Has(|outline.value.sections|)
                           && store.records[req.draftId].totalSections == Progress.Has(|outline.value.sections|)
    ensures var outline := ResolvedOutline(repo.lookup, req);
            outline.Success? && r.Failure? ==>
              && store.records[req.draftId].completedSections
                 == Progress.Has(FailureIndex(outline.value.sections, SectionContextFor(req, outline.value), writer))
              && store.records[req.draftId].totalSections == Progress.Has(|outline.value.sections|)
  {
    var ctx := req.context;
    var outline := RequirePrecedentOutline(repo, ctx.contractTypeId, ctx.contractTypeName, req.precedentOutline);
    if outline.Failure? {
      store.Fail(req.draftId, outline.error, now);
      return Failure(outline.error);
    }
    r := DraftAndStitch(store, req, outline.value, writer, disclaimer, now);
  }

  /** Replacing one entry after a run that changed only that entry leaves
      the map as if only the last replacement had been made. */
  lemma ReplaceAfterRun(base: map<string, Progress.ProgressRecord>, started: Progress.ProgressRecord,
                        mid: map<string, Progress.ProgressRecord>, draftId: string, last: Progress.ProgressRecord)
    requires draftId in mid && mid == base[draftId := started][draftId := mid[draftId]]
    ensures mid[draftId := last] == base[draftId := last]
  {
  }

  /** After the drafting loop the draft's record counts the sections
      drafted before the first failing call, or all of them, out of the
      total that `init` recorded. */
  lemma RunCounts(begun: map<string, Progress.ProgressRecord>, started: Progress.ProgressRecord,
                  mid: map<string, Progress.ProgressRecord>, draftId: string, total: nat, k: nat, now: int)
    requires draftId in begun && begun[draftId] == started
    requires started.completedSections == Progress.Has(0) && started.totalSections == Progress.Has(total as int)
    requires k <= total
    requires k == total ==> mid == RecordsAfter(begun, Some(started), draftId, total, total, now)
    requires k < total ==> mid == begun[draftId := ProgressAtFailure(Some(started), draftId, total, k, now)]
    ensures draftId in mid
    ensures mid[draftId].completedSections == Progress.Has(k as int)
    ensures mid[draftId].totalSections == Progress.Has(total as int)
  {
    if k == total && total > 0 {
      ProgressAfterShape(Some(started), draftId, total, total, now);
    }
  }

  /** The part of `generate_contract` after the outline is resolved. */
  method DraftAndStitch(store: Progress.ProgressStore, req: GenerateRequest, outline: PrecedentOutline,
                        writer: SectionWriter, disclaimer: string, now: int)
    returns (r: Result<string>)
    requires store.Valid()
    modifies store
    ensures store.Valid()
    ensures r == DraftOutcome(req, outline, writer, disclaimer)
    ensures req.draftId in store.records
    ensures store.records == old(store.records)[req.draftId := store.records[req.draftId]]
    ensures r.Failure? ==> store.records[req.draftId].status == Progress.Failed
                           && store.records[req.draftId].error == Progress.Has(Some(r.error))
    ensures r.Success? ==> store.records[req.draftId].status == Progress.Completed
                           && store.records[req.draftId].percent == Progress.Has(100)
                           && store.records[req.draftId].currentStep == Progress.Has(Some(ReadyStep))
    ensures r.Success? ==> store.records[req.draftId].completedSections == Progress.Has(|outline.sections|)
                           && store.records[req.draftId].totalSections == Progress.Has(|outline.sections|)
    ensures r.Failure? ==>
              && store.records[req.draftId].completedSections
                 == Progress.Has(FailureIndex(outline.sections, SectionContextFor(req, outline), writer))
              && store.records[req.draftId].totalSections == Progress.Has(|outline.sections|)
  {
    var sectionContext := SectionContextFor(req, outline);
    var sections := outline.sections;
    ghost var base := store.records;
    store.Init(req.draftId, |sections|, Some(StartingStep), now);
    ghost var started := store.records[req.draftId];
    ghost var begun := store.records;
    var drafted := DraftSections(store, req.draftId, sections, sectionContext, writer, now);
    ghost var mid := store.records;
    ghost var k := FailureIndex(sections, sectionContext, writer);
    if k == |sections| {
      RecordsAfterFrame(begun, Some(started), req.draftId, |sections|, |sections|, now);
    }
    DraftAllFailure(sections, sectionContext, writer);
    RunCounts(begun, started, mid, req.draftId, |sections|, k, now);
    if drafted.Failure? {
      store.Fail(req.draftId, drafted.error, now);
      ReplaceAfterRun(base, started, mid, req.draftId, store.records[req.draftId]);
      return Failure(drafted.error);
    }
    var contractTitle := ContractTitle(outline.title, req.context.contractTypeName);
    var contractText := StitchContract(contractTitle, outline.frontMatter, drafted.value.texts, disclaimer);
    store.Complete(req.draftId, Some(ReadyStep), now);
    ReplaceAfterRun(base, started, mid, req.draftId, store.records[req.draftId]);
    return Success(contractText);
  }

  // ---------------------------------------------------------------------
  // The request as the service declares it (mlend/base_models.py:41-45)
  // ---------------------------------------------------------------------

  /** The declared request: no field holds a pre-fetched outline. */
  datatype DeclaredGenerateRequest = DeclaredGenerateRequest(
    draftId: string,
    context: ContractContext,
    messages: seq<ChatMessage>,
    precedentSnippets: Option<seq<string>>)

  /** The message of the `AttributeError` raised by reading a field the
      request model does not declare. */
  const MissingOutlineAttribute: string := "'GenerateContractRequest' object has no attribute 'precedent_outline'"

  /** `generate_contract` as written: reading `req.precedent_outline` from
      the declared request raises before any outline is resolved, so the
      draft is marked failed and the error is raised again, whatever the
      request holds. */
  method GenerateContractAsWritten(store: Progress.ProgressStore, req: DeclaredGenerateRequest, now: int)
    returns (r: Result<string>)
    requires store.Valid()
    modifies store
    ensures store.Valid()
    ensures r == Failure(MissingOutlineAttribute)
    ensures store.records == old(store.records)[req.draftId :=
              Progress.FailRecord(old(store.Lookup(req.draftId)), req.draftId, MissingOutlineAttribute, now)]
  {
    store.Fail(req.draftId, MissingOutlineAttribute, now);
    return Failure(MissingOutlineAttribute);
  }
}
