# LexGen contract drafting core, in Dafny

LexGen drafts Australian legal contracts. A user picks a contract type and
answers a questionnaire, partly through a chat with a language model. The
Python drafting service (`mlend/`) then does the following:

- it merges the form and chat answers and fills in standard clauses;
- it finds a precedent document for the contract type, either as a Word
  file split into an outline or as pre-split sections in the database;
- it drafts the contract section by section and reports its progress.

The TypeScript back end exports the finished text as PDF or DOCX. It also
does several other jobs:

- it validates the JSON rule language the questionnaire engine reads;
- it keeps Stripe subscriptions in step with users' plans;
- it runs accounts, password reset, onboarding and drafts.

Seed scripts and a front-end catalogue service complete the core.

This project models that core and proves what each part promises. Every
source file of the core is one Dafny module:

- **Drafting service.**
  - `answers.dfy` holds the answer merging, normalisation and readiness rules.
  - `outlines.dfy`, `precedent_loader.dfy`, `precedent_db.dfy` and
    `precedent_repo.dfy` cover the precedent outline and its sources.
  - `progress_store.dfy` is the progress map, as a class.
  - `orchestrator.dfy` covers the chat turn, the drafting loop and
    `generate_contract`.
- **Export.**
  - `contract_text.dfy` turns the text into formatted lines.
  - `pdf_writer.dfy` and `pdf_layout.dfy` write the PDF and prove its object
    offsets and cross-reference table.
  - `crc32.dfy`, `zip_writer.dfy`, `docx_writer.dfy` and `bytes.dfy` build the
    DOCX package.
- **Back-end services.**
  - `rule_validator.dfy` is the rule language validator.
  - `billing.dfy` and `plan.dfy` cover billing.
  - `auth.dfy`, `contracts.dfy`, `onboarding.dfy` and `users.dfy` cover the
    account and draft services.
  - These run over in-memory tables: `store.dfy` provides the `Table`
    class that stands for a repository.
- **Scripts and the front end.**
  - `ingest_precedents.dfy`, `template_ingest.dfy`,
    `contract_type_seed.dfy` and `set_user_plan.dfy` are the scripts.
  - `catalog.dfy` is the front-end catalogue service.
- **Shared helpers.** `strings.dfy` holds the string helpers: ASCII case
  mapping, trimming, splitting and joining, and decimal numbers.

Code that changes state step by step stays imperative. This covers the
progress store, the repository tables, the PDF byte sink, the drafting loop
and the seed loops. Each such method is proved against a function that
specifies it. Lemmas then state what the source promises about that function.

External services are parameters of the model:

- the language model;
- the database queries;
- Stripe;
- password hashing, SHA-256 and JWT signing;
- the mailer;
- random numbers and the clock.

## Model

| member | source | states |
|---|---|---|
| Answers.WithoutReserved | mlend/orchestrator.py:131-147 | the map keeps exactly the keys that do not start with `__`, each with its value |
| Answers.MergeAnswers | mlend/orchestrator.py:131-147 | the merged map has no `__` key; its keys are exactly the non-reserved form and chat keys; on a shared key the form value wins, otherwise the chat value is kept |
| Answers.NonBlankParts | mlend/orchestrator.py:150-157 | the kept list parts are non-empty and there are no more of them than elements; which parts they are is stated by NonBlankPartsIsFilter |
| Answers.NonBlankPartsIsFilter | mlend/orchestrator.py:153-154 | the parts are exactly the trimmed `str()` of the list elements with the blank ones dropped, in list order |
| Answers.NonBlankPartsEmpty | mlend/orchestrator.py:150-157 | no part survives exactly when every list element's text is blank |
| Answers.NormalizeAnswerValue | mlend/orchestrator.py:150-157 | a normalised value is never the empty string; its value for each kind of input is stated by NormalizeAnswerValueCases |
| Answers.NormalizeAnswerValueCases | mlend/orchestrator.py:150-157 | None gives None; a list gives its non-blank trimmed elements joined by ", ", or None when there are none; a string gives its trimmed text, or None when blank; a boolean gives "True" or "False"; a number gives its decimal text |
| Answers.NormalizeNoneIffAbsent | mlend/orchestrator.py:150-157 | a value normalises to None exactly when it is None, a blank string or a list of blank elements |
| Answers.NonEmptyParts | mlend/orchestrator.py:167-170 | exactly the non-empty parts, in order (a filter on non-emptiness) |
| Answers.ContainsStandardClauseLanguage | mlend/orchestrator.py:160-164 | specification predicate: a non-empty text whose lower-cased form contains one of the seven standard-clause keywords |
| Answers.IsStandardClauseQuestion | mlend/orchestrator.py:167-170 | specification predicate: the question's key, label and description, the non-empty ones joined by spaces, contain standard-clause language |
| Answers.DefaultKeysCons | mlend/orchestrator.py:184-201 | the keys that get a default are those of the first question (if it is standard-clause and unanswered) plus those of the rest |
| Answers.DefaultsFor | mlend/orchestrator.py:184-201 | every added default is "Yes", and its keys are exactly the unanswered standard-clause questions |
| Answers.ApplyStandardDefaults | mlend/orchestrator.py:184-201 | the defaults returned are `DefaultsFor`; with none the map is returned unchanged; the new map adds exactly the default keys, each "Yes" where no answer was present, and keeps every other value |
| Answers.DefaultsKeepPresentAnswers | mlend/orchestrator.py:184-201 | a present answer is never overwritten |
| Answers.YesIsAnAnswer | mlend/orchestrator.py:150-157 | the default "Yes" counts as a present answer |
| Answers.DefaultsAnswerStandardQuestions | mlend/orchestrator.py:184-201 | after defaulting, every standard-clause question has a present answer |
| Answers.NoDefaultsWhenAnswered | mlend/orchestrator.py:184-201 | when every standard-clause question is answered no default is added (the `(input, {})` return) |
| Answers.StandardDefaultsIdempotent | mlend/orchestrator.py:184-201 | defaulting the defaulted map adds nothing and returns it unchanged |
| Answers.ComputeAnswerState | mlend/orchestrator.py:229-244 | one answered line per answered question and one missing line per required unanswered question; the lines themselves are stated by AnsweredLines and MissingLines |
| Answers.AnsweredLines | mlend/orchestrator.py:229-244 | the answered lines are "- label: answer", with the normalised answer, for exactly the questions with a present answer, in question order |
| Answers.MissingLines | mlend/orchestrator.py:229-244 | the missing lines are "- label (key)" for exactly the required questions without a present answer, in question order |
| Answers.NothingMissingIffRequiredAnswered | mlend/orchestrator.py:229-244 | the missing list is empty exactly when every required question has a present answer |
| Answers.AnswerStatePartitions | mlend/orchestrator.py:229-244 | answered, missing and skipped (optional and unanswered) questions add up to all questions, so each is in exactly one group |
| Answers.CleanedItems | mlend/orchestrator.py:204-226 | the cleaned summary items are non-empty; which items they are is stated by CleanedItemsIsFilter |
| Answers.CleanedItemsIsFilter | mlend/orchestrator.py:207-211 | the items are exactly the lines with leading dashes and spaces removed and then stripped, the empty ones dropped, in line order |
| Answers.PlainItems | mlend/orchestrator.py:204-226 | exactly the items that mention no standard-clause language, every one of them kept and in order |
| Answers.SummaryText | mlend/orchestrator.py:204-226 | the summary opens with "Summary: "; with at most eight items it is "Summary: " followed by all the items joined by ". " and a final "."; with more than eight it is the first eight items joined the same way with the trailing full stops trimmed, followed by the "And N more detail(s) captured." sentence for N = items − 8 |
| Answers.SummaryTextShowsFirstEight | mlend/orchestrator.py:221-226 | two item lists of the same length that agree on their first eight items give the same summary, so items past the eighth are counted but never shown |
| Answers.BuildReadySummary | mlend/orchestrator.py:204-226 | None exactly when no line has content after stripping leading dashes and spaces; otherwise the summary of the chosen items |
| Answers.SummaryPrefersPlainItems | mlend/orchestrator.py:204-226 | when a plain item exists no summary item mentions standard-clause language; otherwise all items are used |
| Answers.EnsureSectionHeadingShape | mlend/orchestrator.py:119-128 | the result is trimmed, opens with the trimmed heading (ignoring case) when that is non-blank, is the heading for a blank text, is the trimmed text when it already opens with the heading, and otherwise is the trimmed heading, a blank line and the trimmed text |
| Answers.EnsureSectionHeadingTrimmed | mlend/orchestrator.py:119-128 | the result is its own trim |
| Answers.EnsureSectionHeadingOpens | mlend/orchestrator.py:119-128 | a non-blank heading opens the result, compared case-insensitively |
| Answers.EnsureSectionHeadingKeeps | mlend/orchestrator.py:119-128 | a blank text gives the heading; a text that already opens with the heading is only trimmed; any other text gets the trimmed heading and a blank line in front |
| Answers.EnsureSectionHeadingIdempotent | mlend/orchestrator.py:119-128 | ensuring the heading twice is ensuring it once |
| Answers.EnsureSectionHeading | mlend/orchestrator.py:119-128 | specification function; its properties are the EnsureSectionHeadingShape, EnsureSectionHeadingIdempotent and related lemmas |
| Answers.PrependWelcomeIfMissing | mlend/orchestrator.py:177-181 | the result opens with the welcome sentence (ignoring case); a reply whose trim already does is returned unchanged, any other reply becomes the welcome sentence, a blank line and the trimmed reply |
| Answers.PrependWelcomeIdempotent | mlend/orchestrator.py:177-181 | prepending the welcome twice is prepending it once |
| Answers.FormatContractLabel | mlend/orchestrator.py:305-310 | the label is never empty; a non-blank name is used trimmed; with a blank or missing name a non-blank id is used trimmed; with neither it is "unknown contract type" |
| Orchestrator.ModelRole | mlend/orchestrator.py:67-89 | a turn sent to the model is never a system turn; user and assistant turns keep their role |
| Orchestrator.ToModelMessages | mlend/orchestrator.py:67-89 | one model message per chat message, same content, never a system role, and an assistant turn exactly where the chat had one |
| Orchestrator.LastTurns | mlend/orchestrator.py:92-109 | the kept turns are a suffix of the history and, for a positive limit, at most that many |
| Orchestrator.HistoryLines | mlend/orchestrator.py:92-109 | at most one line per message, each prefixed `user: ` or `assistant: ` |
| Orchestrator.HistoryLinesAreSpokenTurns | mlend/orchestrator.py:99-107 | the lines are exactly `role: content`, with the content trimmed, for each message whose content is not blank, in message order |
| Orchestrator.FormatChatHistory | mlend/orchestrator.py:92-109 | specification function: no messages give the empty text; otherwise the HistoryLines of the last turns joined by line breaks, bounded by ChatHistoryBounded |
| Orchestrator.ChatHistoryBounded | mlend/orchestrator.py:92-109 | the formatted history never has more lines than the turn limit |
| Orchestrator.PromptFor | mlend/orchestrator.py:515-563 | the model is asked with exactly the clarifying questions free of standard-clause wording, in their order and with repeats kept, together with the answered and missing lines of the answer view and the chat turns converted one for one by ToModelMessages |
| Orchestrator.ReadyReply | mlend/orchestrator.py:112-116 | the ready reply always ends with the ready-to-generate message, and is preceded by the summary exactly when there is one |
| Orchestrator.AnswerContractChat | mlend/orchestrator.py:507-588 | the draft id is echoed; the model is consulted exactly when a required answer is missing; when nothing is missing the reply is the ready reply and the chat answers gain the defaults plus the summary flag only if a summary is sent; otherwise they gain the defaults and the reply is the model's, with the welcome prepended on the first turn |
| Orchestrator.ReadyTurnShape | mlend/orchestrator.py:535-546 | a ready turn ends with the ready message, and once the summary flag is set it is only that message |
| Orchestrator.SummarySentAtMostOnce | mlend/orchestrator.py:538-543 | after a ready turn that sends the summary, the next turn, given the chat answers that turn returned, has no summary due; if it is ready too, its reply is exactly the ready text |
| Orchestrator.ShouldPrependWelcome | mlend/orchestrator.py:173-174 | specification predicate: no message is an assistant turn |
| Orchestrator.RequireOutline | mlend/orchestrator.py:334-353 | a missing outline and an outline without sections fail with their two messages naming the contract type; it succeeds exactly otherwise, with the parsed outline, which has sections |
| Orchestrator.RequirePrecedentOutline | mlend/orchestrator.py:334-353 | the repository's lookup (falling back to the database outline) is resolved and checked as RequireOutline states |
| Orchestrator.KeepModel | mlend/orchestrator.py:455 | a reported non-empty model name replaces the one kept; otherwise the kept one stays |
| Orchestrator.DraftAllFailure | mlend/orchestrator.py:425-472 | drafting fails exactly when some section's model call fails, with the error of the first failing section, and every earlier call succeeded |
| Orchestrator.DraftedTexts | mlend/orchestrator.py:425-472 | the drafted sections are non-empty and no more than the outline's; when every heading is non-blank there is exactly one per section, each the reply under its heading |
| Orchestrator.DraftedTotals | mlend/orchestrator.py:453-455 | the usage totals are the sums of the input and output tokens over all sections and the last model name reported |
| Orchestrator.ProgressAfterShape | mlend/orchestrator.py:437-466 | after k sections the record is running, counts k of the total, carries the section label and a percent below the running cap |
| Orchestrator.DraftOne | mlend/orchestrator.py:437-466 | one section's call is the writer's result; on success the progress record has moved on to the next section; on failure the record is the one written when the section started, still running at k of N completed with the label for section k+1, and nothing else changed |
| Orchestrator.DraftSections | mlend/orchestrator.py:425-472 | the result is the specification DraftAll; on success the progress records are those after every section; on failure only this draft's record changes, to the running record written when the first failing section started (the failure itself is recorded by the caller) |
| Orchestrator.StitchContract | mlend/orchestrator.py:475-490 | the contract is the stitched body, a blank line, and the disclaimer last |
| Orchestrator.StitchKeepsEveryPart | mlend/orchestrator.py:475-490 | the body is the trimmed title when non-blank, then every non-empty front-matter line in order, then every non-empty section in order, joined by blank lines and stripped |
| Orchestrator.StitchKeepsTitle | mlend/orchestrator.py:475-490 | a non-blank title opens the contract |
| Orchestrator.ContractTitle | mlend/orchestrator.py:638-642 | the title is the outline's title, else the contract type name, else "Contract", trimmed and upper-cased, with no lower-case letter left |
| Orchestrator.GenerateOutcomeShape | mlend/orchestrator.py:591-659 | generation fails when no outline or no sections are found, and a generated contract ends with the disclaimer |
| Orchestrator.GenerateContract | mlend/orchestrator.py:591-659 | the result is the specification GenerateOutcome; only this draft's progress record changes; on failure it is failed with the error, on success completed at 100% with the ready step; on success both section counts equal the outline's section count, and a failure once the outline is found leaves the completed count at the index of the first section that failed to draft (all of them when stitching failed), with the total still the section count |
| Orchestrator.DraftAndStitch | mlend/orchestrator.py:631-652 | drafting then stitching gives DraftOutcome; only this draft's record changes, ending failed with the error or completed at 100%; the completed-section count ends at the number of sections on success and at the index of the first section that failed to draft on failure (all of them when stitching failed), and the total is always the number of sections |
| Orchestrator.GenerateContractAsWritten | mlend/orchestrator.py:607-611 | as written, every call fails on the undeclared `precedent_outline` attribute, and the draft's progress record is marked failed with that message |
| Outlines.ParseSections | mlend/orchestrator.py:313-331 | the parsed sections are no more than the raw ones and each has a non-blank heading or body |
| Outlines.ParseSectionsIsFilter | mlend/orchestrator.py:319-324 | the parsed sections are exactly the trimmed heading and body of each raw section whose heading or body is not blank, in order |
| Outlines.ParseSectionsKeeps | mlend/orchestrator.py:313-331 | no section survives exactly when every raw section has a blank heading and a blank body |
| Outlines.ParsePrecedentOutline | mlend/orchestrator.py:313-331 | the title is kept, missing front matter and placeholders become empty lists, and the sections are exactly the trimmed heading and body of each raw section with content, in order |
| PrecedentLoader.NormalizeChar | mlend/precedent_loader.py:15-26 | the en and em dashes become "-", the curly single quotes "'", the curly double quotes "\"", and every other character is kept |
| PrecedentLoader.NormalizeText | mlend/precedent_loader.py:15-26 | the text keeps its length and every non-typographic character, and no typographic dash or quote remains; the ingest script's `normalizeText` maps the same six characters and is this function |
| PrecedentLoader.NormalizeTextIdempotent | mlend/precedent_loader.py:15-26 | normalising twice gives the same text as normalising once |
| PrecedentLoader.IsAllCapsHeading | mlend/precedent_loader.py:41-47 | specification predicate; AllCapsIffFullRatio states what it accepts |
| PrecedentLoader.AllCapsIffFullRatio | mlend/precedent_loader.py:41-47 | a paragraph is an all-caps heading exactly when it has a letter, is at most 120 characters long and all its letters are upper case |
| PrecedentLoader.SomeLowerFewerUpper | mlend/precedent_loader.py:33-38 | one lower-case letter makes the upper-case count fall short of the letter count, so the ratio is below 1 |
| PrecedentLoader.AfterNumber | mlend/precedent_loader.py:12 | the text after a leading number, dot and spaces is non-empty, starts with a non-space and is a suffix of the paragraph |
| PrecedentLoader.PythonTail | mlend/precedent_loader.py:12 | the `$` anchor accepts the rest of the line with at most one final newline, which is not part of the captured text |
| PrecedentLoader.IsTopLevelNumberedHeading | mlend/precedent_loader.py:50-55 | specification predicate; NumberedHeadingShape states what it accepts |
| PrecedentLoader.IsSectionHeading | mlend/precedent_loader.py:58-59 | specification predicate: an all-caps or a top-level numbered heading |
| PrecedentLoader.NumberedHeadingShape | mlend/precedent_loader.py:50-59 | a numbered heading starts with a digit and has a letter; a paragraph not starting with a digit is a section heading exactly when it is an all-caps heading |
| PrecedentLoader.MatchEnd | mlend/precedent_loader.py:11 | a match at the start of a line is a `{{ key }}` placeholder whose key is the trimmed text between the braces |
| PrecedentLoader.PlaceholderKeys | mlend/precedent_loader.py:77-84 | every key found on a line is non-empty and already trimmed |
| PrecedentLoader.PlaceholderKeysWrapped | mlend/precedent_loader.py:77-84 | every key found on a line occurs there wrapped in double braces |
| PrecedentLoader.ExtractPlaceholders | mlend/precedent_loader.py:77-84 | the placeholder list is strictly sorted (sorted and without duplicates), non-empty trimmed keys, and holds exactly the keys found on some line |
| PrecedentLoader.PlaceholdersWrapped | mlend/precedent_loader.py:77-84 | every extracted placeholder occurs wrapped in double braces on one of the lines |
| PrecedentLoader.ScanPartition | mlend/precedent_loader.py:98-124 | scanning the paragraphs splits them, in order and without loss, into front matter followed by one group per heading, each group opening with its heading |
| PrecedentLoader.SectionsOf | mlend/precedent_loader.py:105-124 | one section per group, each the group's heading and its body lines joined |
| PrecedentLoader.OutlineOfShape | mlend/precedent_loader.py:87-139 | the title is the first paragraph exactly when that is an all-caps heading; there is one section per heading paragraph and each section's heading is a heading; no front-matter paragraph is a heading; the placeholders are sorted without duplicates; the body paragraphs are all accounted for |
| PrecedentLoader.BuildOutline | mlend/precedent_loader.py:87-139 | the loop builds exactly the outline OutlineOf describes |
| PrecedentLoader.BuildPrecedentOutline | mlend/precedent_loader.py:87-139 | with the source's title and heading tests: the outline is OutlineOf, the title is present exactly when the first paragraph is all caps, and every section heading is a section heading |
| PrecedentLoader.LoadPrecedentOutline | mlend/precedent_loader.py:143-147 | a missing document fails with "Precedent not found: " and the path, exactly when it is missing; otherwise the outline is built from its paragraphs |
| PrecedentDb.MergeChunk | mlend/precedent_db.py:126-137 | a chunk's heading is its non-empty headings joined with " / ", or "Combined section" when it has none; its body is its non-blank trimmed texts joined with a blank line |
| PrecedentDb.ChunksOf | mlend/precedent_db.py:123-126 | every chunk is non-empty and no longer than the chunk size |
| PrecedentDb.ChunksPartition | mlend/precedent_db.py:123-126 | the chunks, concatenated, give back the rows in order |
| PrecedentDb.ChunksCount | mlend/precedent_db.py:123-126 | rows that fit in `count` chunks of the size make at most `count` chunks |
| PrecedentDb.MergedSections | mlend/precedent_db.py:108-138 | specification function; MergedSectionsShape and MergedBodiesInOrder state its properties |
| PrecedentDb.MergedSectionsShape | mlend/precedent_db.py:108-138 | no sections merge to none and only those; up to seven rows are kept one for one, trimmed; never more than seven sections come out |
| PrecedentDb.MergedBodiesInOrder | mlend/precedent_db.py:129-131 | merging loses and reorders no body text: the chunks' bodies in order are the rows' bodies |
| PrecedentDb.MergeSections | mlend/precedent_db.py:108-138 | the loop over chunks computes exactly the merged sections MergedSections describes |
| PrecedentDb.PathOutline | mlend/precedent_db.py:155-169 | an outline is built exactly when some section survives merging; with a document it carries the document's title, front matter and placeholders, without one no title and empty lists |
| PrecedentDb.GetOutlineFromDb | mlend/precedent_db.py:141-190 | a truthy id with sections wins; otherwise the name is tried; the result is None exactly when neither the id nor the name has sections |
| PrecedentRepo.PrecedentRepository.constructor | mlend/precedent_repo.py:6 | a new repository has no lookup configured |
| PrecedentRepo.PrecedentRepository.Configure | mlend/precedent_repo.py:9-14 | the given lookup becomes the configured one |
| PrecedentRepo.PrecedentRepository.GetPrecedentOutline | mlend/precedent_repo.py:17-31 | a configured lookup decides the outline; without one the database outline passed in is returned |
| Progress.RoundHalfEven | mlend/progress_store.py:14-18 | the result is the nearest integer to the quotient, and an exact tie goes to the even one |
| Progress.RoundHalfEvenMonotone | mlend/progress_store.py:14-18 | rounding preserves order |
| Progress.Percent | mlend/progress_store.py:14-18 | the percentage lies between 0 and 100, and is 0 for a non-positive total |
| Progress.PercentMonotone | mlend/progress_store.py:14-18 | completing more sections never lowers the percentage |
| Progress.PercentEnds | mlend/progress_store.py:14-18 | nothing completed is 0%, all completed is 100% |
| Progress.InitRecord | mlend/progress_store.py:21-36 | a new record is running, with no error, nothing completed, 0%, the given total, step and time |
| Progress.UpdateRecord | mlend/progress_store.py:39-71 | an update is running at the given time, with completed sections clamped at 0, a percent capped at 95, the given total and step when supplied and the previous ones otherwise, and the previous id and error kept |
| Progress.UpdatePercentMonotone | mlend/progress_store.py:39-71 | a later update with at least as many sections completed never shows a lower percent |
| Progress.CompleteRecord | mlend/progress_store.py:74-97 | completion sets status completed, 100% and no error at the given time, keeps the counts and takes the step when given |
| Progress.FailRecord | mlend/progress_store.py:100-106 | failure sets status failed and the error at the given time and keeps every other field of the previous record (none when there was none) |
| Progress.ProgressStore.Lookup | mlend/progress_store.py:109-114 | a record is found exactly when the draft has one |
| Progress.ProgressStore.constructor | mlend/progress_store.py:7 | the store starts empty |
| Progress.ProgressStore.Init | mlend/progress_store.py:21-36 | only this draft's record changes, to a fresh one |
| Progress.ProgressStore.Update | mlend/progress_store.py:39-71 | only this draft's record changes, to UpdateRecord of its previous one |
| Progress.ProgressStore.Complete | mlend/progress_store.py:74-97 | only this draft's record changes, to CompleteRecord of its previous one |
| Progress.ProgressStore.Fail | mlend/progress_store.py:100-106 | only this draft's record changes, to FailRecord of its previous one |
| Progress.ProgressStore.Get | mlend/progress_store.py:109-114 | the draft's record is returned exactly when there is one |
| IngestPrecedents.EntityAt | backend/scripts/ingest-precedents.ts:19-32 | a recognised entity starts with `&` and is four to six characters long |
| IngestPrecedents.DecodeXmlEntities | backend/scripts/ingest-precedents.ts:27-32 | decoding never makes the text longer |
| IngestPrecedents.DecodeWithoutAmpersand | backend/scripts/ingest-precedents.ts:27-32 | text without `&` is left unchanged |
| IngestPrecedents.DecodePlain | backend/scripts/ingest-precedents.ts:27-32 | a character other than `&` is copied and decoding carries on after it |
| IngestPrecedents.JsTail | backend/scripts/ingest-precedents.ts:17 | without the multiline flag, `$` accepts the rest only when it holds no line terminator |
| IngestPrecedents.IsTopLevelNumberedHeading | backend/scripts/ingest-precedents.ts:62-67 | specification predicate with JavaScript's `$`; HeadingsAgreeOnOneLine and HeadingsDifferOnFinalLineBreak compare it with the Python loader |
| IngestPrecedents.IsSectionHeading | backend/scripts/ingest-precedents.ts:69-71 | specification predicate: an all-caps or a top-level numbered heading |
| IngestPrecedents.HeadingsAgreeOnOneLine | backend/scripts/ingest-precedents.ts:62-71 | on a single line the script's heading tests agree with the Python loader's, under the ASCII letter classes of this model |
| IngestPrecedents.HeadingsDifferOnFinalLineBreak | backend/scripts/ingest-precedents.ts:17 | "1. TERM" with a final newline is a numbered heading for Python's `$` but not for JavaScript's |
| IngestPrecedents.ExtractPlaceholders | backend/scripts/ingest-precedents.ts:96-107 | the loop gives the same key set as the Python loader, in code-point order: strictly sorted, non-empty, trimmed |
| IngestPrecedents.BuildOutline | backend/scripts/ingest-precedents.ts:109-161 | the outline is the loader's OutlineOf under the script's title and heading tests, with a title exactly when the first paragraph is one and one section per heading |
| IngestPrecedents.OutlinesAgreeOnOneLine | backend/scripts/ingest-precedents.ts:109-161 | for paragraphs without line terminators the script and the Python loader build the same outline, under the ASCII letter classes and the code-point placeholder order of this model |
| IngestPrecedents.Tokenize | backend/scripts/ingest-precedents.ts:163-169 | every token is longer than two characters and made only of lower-case letters and digits |
| IngestPrecedents.TokenizeSplits | backend/scripts/ingest-precedents.ts:163-169 | a character that is neither letter nor digit separates tokens: the tokens of both sides, in order |
| IngestPrecedents.ScoreTokens | backend/scripts/ingest-precedents.ts:171-177 | the score counts the tokens of the first list found in the second; ScoreIsIntersection states it is the intersection size |
| IngestPrecedents.ScoreIsIntersection | backend/scripts/ingest-precedents.ts:171-177 | the score of a duplicate-free token list is the size of its intersection with the other |
| IngestPrecedents.Scores | backend/scripts/ingest-precedents.ts:184-190 | one entry per contract type: its score when it has tokens, otherwise skipped |
| IngestPrecedents.BestOfNoneIffAllSkipped | backend/scripts/ingest-precedents.ts:183-195 | there is no best exactly when every contract type was skipped |
| IngestPrecedents.BestOfIsFirstMaximum | backend/scripts/ingest-precedents.ts:183-194 | the best score is at least every score, and strictly above every earlier one (the first maximum wins) |
| IngestPrecedents.ResolveContractType | backend/scripts/ingest-precedents.ts:179-198 | for distinct document tokens, as the source's set gives, the loop picks the first best-scoring contract type, and none when there is no candidate or the best score is below 2 |
| IngestPrecedents.ResolveNoneMeaning | backend/scripts/ingest-precedents.ts:179-198 | no type is chosen exactly when every candidate scores below 2 |
| IngestPrecedents.ResolveBestMeaning | backend/scripts/ingest-precedents.ts:179-198 | the chosen type is a candidate, its score is the maximum over all candidates, and every earlier candidate scores strictly less |
| ContractText.EscapePdfTextRoundTrip | backend/src/contracts/contract-export.util.ts:3-4 | escaped text is a well-formed PDF literal body (every parenthesis and backslash escaped) and unescaping it gives the original back |
| ContractText.EscapeXmlSafe | backend/src/contracts/contract-export.util.ts:6-12 | escaped text never holds a raw `<`, `>` or quote, and every `&` opens one of the five entities |
| ContractText.EscapeXmlAppend | backend/src/contracts/contract-export.util.ts:6-12 | escaping works character by character: escaping a concatenation concatenates the escapes |
| ContractText.EscapeXml | backend/src/contracts/contract-export.util.ts:6-12 | specification function; EscapeXmlSafe and EscapeXmlAppend state its properties |
| ContractText.SplitPlaceholdersShape | backend/src/contracts/contract-export.util.ts:164-172 | the segments, concatenated, are the text; none is empty; a segment is bold exactly when its whole text is a placeholder (the anchored test); no two plain segments are adjacent |
| ContractText.HardSplit | backend/src/contracts/contract-export.util.ts:40-45 | every piece split off is exactly the width long and the remainder is no longer than the width |
| ContractText.HardSplitText | backend/src/contracts/contract-export.util.ts:40-45 | the pieces followed by the remainder spell the word |
| ContractText.SplitLongWord | backend/src/contracts/contract-export.util.ts:40-45 | the loop cuts the word into the pieces HardSplit gives: each at most the width long, together spelling the word |
| ContractText.WrapOneLine | backend/src/contracts/contract-export.util.ts:18-51 | the loop over words yields the lines WrapLine gives, whose properties WrapLineProps states |
| ContractText.WrapLineProps | backend/src/contracts/contract-export.util.ts:18-51 | a blank line wraps to one empty line; a non-blank one to non-empty lines; every line is within the width or one unbreakable word; no non-space character is lost, added or reordered; which long words are hard split is stated by LongWordKeptWhole and LeadingLongWordSplit |
| ContractText.WrapLine | backend/src/contracts/contract-export.util.ts:18-51 | specification function; WrapLineProps states its properties |
| ContractText.WrapText | backend/src/contracts/contract-export.util.ts:14-54 | the result is Wrapped of the text: one empty line per blank input line, and lines with a space never longer than the width (WrappedProps); a long word is hard split only when nothing precedes it on its line (LongWordKeptWhole, LeadingLongWordSplit) |
| ContractText.WrappedProps | backend/src/contracts/contract-export.util.ts:14-54 | every wrapped line is within the width or one unbreakable word, and the non-space characters of the text survive in order; the hard-split rule per input line is LongWordKeptWhole and LeadingLongWordSplit |
| ContractText.LongWordKeptWhole | backend/src/contracts/contract-export.util.ts:26-37 | a word longer than the width that follows a non-empty word on its line is not split: the line being filled is non-empty, is emitted, and the long word starts the next line whole |
| ContractText.LeadingLongWordSplit | backend/src/contracts/contract-export.util.ts:26-46 | a word longer than the width with only empty words before it on its line is hard split: pieces of exactly the width, then a remainder that stays as the line being filled |
| ContractText.SplitLines | backend/src/contracts/contract-export.util.ts:15 | splitting on line breaks always gives at least one line |
| ContractText.SplitLinesText | backend/src/contracts/contract-export.util.ts:15 | splitting on `\r?\n` loses no non-space character |
| ContractText.StripConfirm | backend/src/contracts/contract-export.util.ts:61-62 | removing the markers never lengthens the line |
| ContractText.StripConfirmUntouched | backend/src/contracts/contract-export.util.ts:61-62 | a line without a TO BE CONFIRMED marker is left as it is |
| ContractText.GetHeadingInfoSpec | backend/src/contracts/contract-export.util.ts:64-79 | a line is a heading exactly when, stripped and trimmed, it is non-empty, at most 140 characters and numbered, colon-terminated or all caps; it is a sub-heading exactly when dot-numbered; the colon is dropped only from unnumbered headings |
| ContractText.CapsPunctuationIsAllCaps | backend/src/contracts/contract-export.util.ts:75-77 | the last heading test adds nothing: every line it accepts is already all caps |
| ContractText.HeadingShort | backend/src/contracts/contract-export.util.ts:70 | a heading's content is at most 140 characters |
| ContractText.CollapseSpacesProps | backend/src/contracts/contract-export.util.ts:89 | collapsing white space leaves single spaces only and every other character in order |
| ContractText.MergeProps | backend/src/contracts/contract-export.util.ts:89 | a merged paragraph is trimmed, single-spaced and holds the buffer's non-space characters in order |
| ContractText.ListItem | backend/src/contracts/contract-export.util.ts:104-107 | the item is what follows the marker, a proper suffix of the line |
| ContractText.ListItemProps | backend/src/contracts/contract-export.util.ts:104-107 | the item of a trimmed list line is non-empty and does not start with white space |
| ContractText.FlushBuffer | backend/src/contracts/contract-export.util.ts:87-94 | flushing empties the buffer and appends its merged paragraph when that is non-empty |
| ContractText.FormatContractText | backend/src/contracts/contract-export.util.ts:81-123 | the blocks are FormatContract of the text: trimmed single-spaced paragraphs and one-item lists (FormatContractProps) |
| ContractText.FormatContractProps | backend/src/contracts/contract-export.util.ts:81-123 | every block is well formed (trimmed single-spaced non-empty paragraphs, one-item lists, headings of at most 140 characters) and there are no more blocks than lines |
| ContractText.FormatContract | backend/src/contracts/contract-export.util.ts:81-123 | specification function; FormatContractProps states its properties |
| ContractText.Styled | backend/src/contracts/contract-export.util.ts:138-158 | one render line per wrapped line, each with the given style |
| ContractText.PushHeading | backend/src/contracts/contract-export.util.ts:135-144 | a heading adds a blank line unless it is the first block, then its lines wrapped at 90 in heading or sub-heading style |
| ContractText.PushList | backend/src/contracts/contract-export.util.ts:147-154 | each item adds its "- " line wrapped at 92 in list style |
| ContractText.PushBlock | backend/src/contracts/contract-export.util.ts:134-159 | a block adds exactly its BlockLines |
| ContractText.BuildRenderLines | backend/src/contracts/contract-export.util.ts:130-162 | the lines are RenderLines of the text, styled per block as RenderLinesProps states |
| ContractText.BlockLinesProps | backend/src/contracts/contract-export.util.ts:134-159 | every line of a block can be drawn and together they hold the block's non-space text |
| ContractText.RenderLinesProps | backend/src/contracts/contract-export.util.ts:130-162 | every render line is empty or starts with a word and fits a paragraph's width unless one word, and the lines hold the formatted text's non-space characters in order |
| PdfWriter.Paginate | backend/src/contracts/contract-export.util.ts:182-189 | the number of pages is the line count divided by 48, rounded up |
| PdfWriter.PaginateLines | backend/src/contracts/contract-export.util.ts:186-189 | the loop splits the lines into the pages Paginate gives: at most 48 lines a page, nothing lost or reordered (PaginateProps) |
| PdfWriter.PaginateProps | backend/src/contracts/contract-export.util.ts:182-189 | the pages, concatenated, are the render lines in order, and each page holds between 1 and 48 lines |
| PdfWriter.PageCount | backend/src/contracts/contract-export.util.ts:208 | there is always at least one page, and exactly as many as were cut when there are some |
| PdfWriter.UseFont | backend/src/contracts/contract-export.util.ts:246-251 | after setFont the font and size are the requested ones, and an operator is emitted only when they change |
| PdfWriter.SetFontStep | backend/src/contracts/contract-export.util.ts:246-251 | the emitted content parts follow UseFont |
| PdfWriter.ShowSegmentsStep | backend/src/contracts/contract-export.util.ts:266-271 | the parts emitted for a line's segments follow ShowSegments |
| PdfWriter.DrawLineStep | backend/src/contracts/contract-export.util.ts:253-274 | the parts emitted for a line follow DrawLine |
| PdfWriter.ContentStream | backend/src/contracts/contract-export.util.ts:236-278 | the stream is PageStream of the page, whose font operators and shown segments UseFontProps, ShowSegmentProps and DrawLinesProps describe |
| PdfWriter.UseFontProps | backend/src/contracts/contract-export.util.ts:246-251 | the last font operator in the stream is the font and size in use afterwards; no text or line break is added |
| PdfWriter.ShowSegmentProps | backend/src/contracts/contract-export.util.ts:267-271 | each segment is shown in F2 when bold and the line's base font otherwise, at the line's size, and its text is shown as it is |
| PdfWriter.DrawLineProps | backend/src/contracts/contract-export.util.ts:253-274 | drawing a line shows exactly its text and moves down one line |
| PdfWriter.DrawLinesProps | backend/src/contracts/contract-export.util.ts:253-274 | a page's stream moves down once per line and shows the lines' texts in order |
| PdfWriter.Kids | backend/src/contracts/contract-export.util.ts:220-222 | the page tree lists one kid per page |
| PdfWriter.Streams | backend/src/contracts/contract-export.util.ts:235-236 | one content stream per page, and one for a blank page when there are none |
| PdfWriter.Bodies | backend/src/contracts/contract-export.util.ts:208-215 | the file has four fixed objects plus a page and a content object per page |
| PdfWriter.BodiesFrame | backend/src/contracts/contract-export.util.ts:208-233 | object 1 is the catalog, 2 the page tree, and the two fonts follow the pages |
| PdfWriter.BodiesPages | backend/src/contracts/contract-export.util.ts:225-230 | every page object points at the page tree, the two fonts and its own content object |
| PdfWriter.BodiesContents | backend/src/contracts/contract-export.util.ts:235-285 | each content object wraps its page's stream |
| PdfWriter.Offsets | backend/src/contracts/contract-export.util.ts:201-204 | every object's recorded offset is where its bytes begin, after the header and the earlier objects |
| PdfWriter.Sink.constructor | backend/src/contracts/contract-export.util.ts:191-193 | the writer starts with no bytes, no offsets and a zero cursor |
| PdfWriter.Sink.Push | backend/src/contracts/contract-export.util.ts:195-199 | pushing appends the chunk's UTF-8 bytes and moves the cursor by their count |
| PdfWriter.Sink.AddObject | backend/src/contracts/contract-export.util.ts:201-204 | the object's offset is the cursor before it, the offsets array grows to hold its id, and its text is appended |
| PdfWriter.WriteXref | backend/src/contracts/contract-export.util.ts:287-297 | after the objects, the cross-reference table and trailer complete the file exactly as Layout describes |
| PdfWriter.WriteDocument | backend/src/contracts/contract-export.util.ts:206-297 | an empty writer ends up holding exactly the Layout of the objects' bytes |
| PdfWriter.BuildPdfBuffer | backend/src/contracts/contract-export.util.ts:174-300 | the bytes are Pdf of the text, whose object offsets, 20-byte cross-reference entries, startxref and stream lengths PdfShape, ObjectAt, XrefEntryAt, StartXrefAt and StreamLength pin down |
| PdfWriter.Pdf | backend/src/contracts/contract-export.util.ts:174-300 | specification function; Offsets, BodiesFrame, BodiesPages, BodiesContents and PdfLayout.PdfShape state its properties |
| PdfLayout.PdfShape | backend/src/contracts/contract-export.util.ts:182-215 | a document has one stream per 48 render lines (one when there are none) and five offsets more than twice the pages, entry 0 included |
| PdfLayout.ObjectAt | backend/src/contracts/contract-export.util.ts:201-204 | at each object's recorded offset the file holds that object's `id 0 obj` tag |
| PdfLayout.XrefEntryShape | backend/src/contracts/contract-export.util.ts:291-292 | a cross-reference entry is 20 bytes: ten digits that read back as the offset, then " 00000 n " and a newline |
| PdfLayout.XrefEntryAt | backend/src/contracts/contract-export.util.ts:288-293 | the k-th table entry, at its 20-byte slot, is the entry for object k+1's offset |
| PdfLayout.StartXrefAt | backend/src/contracts/contract-export.util.ts:287-297 | the startxref number reads back as the position where `xref` begins, and the file ends with that startxref line and `%%EOF` |
| PdfLayout.StreamLength | backend/src/contracts/contract-export.util.ts:280-284 | the `/Length` of a content object is the UTF-8 byte count of its stream, which sits between `stream` and `endstream` |
| Crc32.BuildTable | backend/src/contracts/contract-export.util.ts:302-312 | each of the 256 table entries is its index put through eight steps of the reflected 0xEDB88320 shift-and-xor |
| Crc32.ComputeCrc32 | backend/src/contracts/contract-export.util.ts:314-320 | the table-driven loop computes Checksum of the data |
| Crc32.ChecksumBound | backend/src/contracts/contract-export.util.ts:314-320 | the checksum fits in 32 bits, as `>>> 0` makes it |
| Crc32.Checksum | backend/src/contracts/contract-export.util.ts:314-320 | the checksum of no data is 0 |
| Crc32.UpdateIsBitwise | backend/src/contracts/contract-export.util.ts:317 | one table lookup equals eight bitwise steps of the CRC register after xoring in the byte |
| Crc32.ChecksumIsBitwise | backend/src/contracts/contract-export.util.ts:302-320 | the table-driven CRC-32 equals the bit-at-a-time CRC-32 |
| Crc32.StepsLinear | backend/src/contracts/contract-export.util.ts:305-308 | the shift-and-xor steps are linear over xor |
| ZipWriter.EncodeNames | backend/src/contracts/contract-export.util.ts:335-336 | each entry's name is taken as its UTF-8 bytes and its data is kept |
| ZipWriter.LocalHeader | backend/src/contracts/contract-export.util.ts:340-351 | a local header is 30 bytes |
| ZipWriter.LocalHeaderFields | backend/src/contracts/contract-export.util.ts:340-351 | the local header reads back as the signature 0x04034b50, version 20, method 0 (stored), the CRC, the size twice and the name length |
| ZipWriter.CentralHeader | backend/src/contracts/contract-export.util.ts:360-377 | a central directory header is 46 bytes |
| ZipWriter.CentralHeaderFields | backend/src/contracts/contract-export.util.ts:360-377 | the central header reads back as the signature 0x02014b50, method 0, the CRC, the size twice, the name length and the local header's offset |
| ZipWriter.EndRecord | backend/src/contracts/contract-export.util.ts:385-393 | the end record is 22 bytes |
| ZipWriter.EndRecordFields | backend/src/contracts/contract-export.util.ts:385-393 | the end record reads back as the signature 0x06054b50, the entry count twice, the directory size and the directory offset |
| ZipWriter.Checksums | backend/src/contracts/contract-export.util.ts:337 | one checksum per entry, the CRC-32 of its data |
| ZipWriter.ZipSucceedsIff | backend/src/contracts/contract-export.util.ts:322-396 | building the archive fails exactly when a name, size, offset, the directory or the entry count overflows its field, which makes Node's writeUInt throw |
| ZipWriter.WriteLocals | backend/src/contracts/contract-export.util.ts:334-357 | the first loop succeeds exactly when every entry fits, and then yields the local chunks, one record per entry and the offset past them |
| ZipWriter.WriteCentral | backend/src/contracts/contract-export.util.ts:359-380 | the second loop succeeds exactly when the last local offset fits in 32 bits, and yields the central directory |
| ZipWriter.BuildZip | backend/src/contracts/contract-export.util.ts:322-396 | the bytes are Zip of the entries: a failure exactly when a field overflows (ZipSucceedsIff), else the local files, central directory and end record that ArchiveLayout places |
| ZipWriter.LocalWithin | backend/src/contracts/contract-export.util.ts:353-356 | entry i's local header, name and data sit in the archive between its offset and the next entry's |
| ZipWriter.CentralWithin | backend/src/contracts/contract-export.util.ts:379 | entry i's central header and name sit at their place in the directory and record the entry's local offset |
| ZipWriter.ArchiveLayout | backend/src/contracts/contract-export.util.ts:395 | the archive is the local chunks, then the central directory at the offset the end record names, then the end record |
| ZipWriter.Zip | backend/src/contracts/contract-export.util.ts:322-396 | specification function; ZipSucceedsIff, LocalWithin, CentralWithin and ArchiveLayout state its properties |
| DocxWriter.DecodeEscapeXml | backend/src/contracts/contract-export.util.ts:411 | decoding the five XML entities undoes the escaping exactly |
| DocxWriter.FontSize | backend/src/contracts/contract-export.util.ts:406 | headings are size 28, sub-headings 24 and every other line 22 |
| DocxWriter.ParagraphXml | backend/src/contracts/contract-export.util.ts:401-415 | a blank line becomes an empty paragraph; any other line a `<w:p>` element |
| DocxWriter.TextContents | backend/src/contracts/contract-export.util.ts:408-414 | one run text per segment, the segment's text escaped |
| DocxWriter.ParagraphRoundTrip | backend/src/contracts/contract-export.util.ts:403-414 | the run texts are non-empty and XML-safe, and decoded and joined they give back the line's text |
| DocxWriter.Package | backend/src/contracts/contract-export.util.ts:442-446 | the package holds the content types, the relationships and the document, under their three names, in that order |
| DocxWriter.BuildParagraphs | backend/src/contracts/contract-export.util.ts:400-417 | the XML is ParagraphsXml of the render lines, each paragraph's text decoding back to its segments (ParagraphRoundTrip) |
| DocxWriter.BuildDocxBuffer | backend/src/contracts/contract-export.util.ts:398-447 | the bytes are Docx of the text: the ZIP package of the content types, the relationships and the document XML built from the render lines (Package, PackageSucceeds) |
| DocxWriter.PackageSucceeds | backend/src/contracts/contract-export.util.ts:442-446 | zipping the three parts cannot fail while they total under 2^31 bytes: no ZIP field then overflows |
| Bytes.LE16 | backend/src/contracts/contract-export.util.ts:342 | the two little-endian bytes read back as the number |
| Bytes.LE32 | backend/src/contracts/contract-export.util.ts:341 | the four little-endian bytes read back as the number |
| Bytes.Utf8Char | backend/src/contracts/contract-export.util.ts:196 | a character takes one to four bytes, exactly one for ASCII, which is its own code |
| Bytes.Utf8Append | backend/src/contracts/contract-export.util.ts:196 | encoding a concatenation concatenates the encodings |
| Bytes.Utf8Ascii | backend/src/contracts/contract-export.util.ts:196 | ASCII text encodes byte for byte |
| Bytes.DecodeUtf8 | backend/src/contracts/contract-export.util.ts:196 | decoding the UTF-8 encoding of a string gives back the string |
| RuleValidator.Lookup | backend/src/orchestrator/rule-language.validator.ts:62-68 | a key is found at a position holding that key, and not found exactly when no field has it |
| RuleValidator.ModeCount | backend/src/orchestrator/rule-language.validator.ts:84-91 | at most four of all, any, not and var can be present |
| RuleValidator.Check | backend/src/orchestrator/rule-language.validator.ts:70-72 | a passing check adds nothing; a failing one adds exactly one error at its path |
| RuleValidator.ValidateExpression | backend/src/orchestrator/rule-language.validator.ts:74-163 | the recursive walk appends exactly ExprErrors for the expression and its path |
| RuleValidator.ValidateList | backend/src/orchestrator/rule-language.validator.ts:101-120 | an all/any list is checked to be a non-empty array and then each item, appending ListErrors |
| RuleValidator.ValidateLeaf | backend/src/orchestrator/rule-language.validator.ts:132-163 | a comparison leaf appends exactly LeafErrors |
| RuleValidator.ExprErrorsEmptyIff | backend/src/orchestrator/rule-language.validator.ts:74-163 | an expression yields no error exactly when it satisfies the independent grammar ValidExpr |
| RuleValidator.ExprErrorsUnder | backend/src/orchestrator/rule-language.validator.ts:74-163 | every error an expression yields lies at or under the expression's path |
| RuleValidator.ValidateAction | backend/src/orchestrator/rule-language.validator.ts:165-228 | one action's check appends exactly ActionErrors |
| RuleValidator.ActionErrorsFields | backend/src/orchestrator/rule-language.validator.ts:165-228 | an unknown action type gives the one action-type error; a known one only reports on the fields that type checks |
| RuleValidator.SetVariableValue | backend/src/orchestrator/rule-language.validator.ts:165-228 | a set_variable action with a variable key is valid exactly when it has a value |
| RuleValidator.ActionErrorsEmptyIff | backend/src/orchestrator/rule-language.validator.ts:165-228 | an action yields no error exactly when it satisfies ValidAction |
| RuleValidator.ActionErrorsUnder | backend/src/orchestrator/rule-language.validator.ts:165-228 | every error an action yields lies under the action's path |
| RuleValidator.ValidateRule | backend/src/orchestrator/rule-language.validator.ts:230-265 | the method returns exactly RuleErrors |
| RuleValidator.ValidateHead | backend/src/orchestrator/rule-language.validator.ts:238-248 | the rule_id, severity and description checks yield exactly HeadErrors |
| RuleValidator.ValidateThen | backend/src/orchestrator/rule-language.validator.ts:256-262 | the `then` check appends exactly ThenErrors |
| RuleValidator.ThenErrorsEmptyIff | backend/src/orchestrator/rule-language.validator.ts:256-262 | `then` yields no error exactly when it is a non-empty array of valid actions |
| RuleValidator.RuleErrorsEmptyIff | backend/src/orchestrator/rule-language.validator.ts:230-265 | a rule yields no error exactly when it satisfies ValidRule |
| RuleValidator.RuleErrorsInOrder | backend/src/orchestrator/rule-language.validator.ts:230-265 | errors come out in the order the checks run: head fields, then `when`, then `then` |
| RuleValidator.RuleErrorsRooted | backend/src/orchestrator/rule-language.validator.ts:230-265 | every error path of a rule starts with `$` |
| RuleValidator.RepathAll | backend/src/orchestrator/rule-language.validator.ts:272-277 | re-rooting keeps every error and its message |
| RuleValidator.RepathDollar | backend/src/orchestrator/rule-language.validator.ts:274 | a rule's error path is re-rooted under `$[i]`, the root `$` itself becoming `$[i]` |
| RuleValidator.RulesErrorsEmptyIff | backend/src/orchestrator/rule-language.validator.ts:267-278 | a rules payload yields no error exactly when it is an array of valid rules |
| Billing.MapStripeStatus | backend/src/billing/billing.service.ts:383-403 | trialing and active map to themselves, past_due and unpaid to past_due, canceled and incomplete_expired to canceled, and every other status to inactive |
| Billing.UserTierOf | backend/src/billing/billing.service.ts:421-432 | the pro tiers give PRO, the business tiers BUSINESS and free gives FREE |
| Billing.PriceOf | backend/src/billing/billing.service.ts:332-339 | a price id is only taken when the first item has a non-empty one |
| Billing.CurrentPeriodEnd | backend/src/billing/billing.service.ts:405-419 | there is no period end exactly when the first item is missing or its timestamp is not a number or is 0; otherwise it is the timestamp in milliseconds |
| Billing.TierOfPrice | backend/src/billing/billing.service.ts:341 | an unknown price id gives free; a known one gives a paid tier whose price id it is |
| Billing.UpsertKeepsUnique | backend/src/billing/billing.service.ts:351-373 | an upsert keeps at most one row per user and Stripe subscription |
| Billing.UpsertWrites | backend/src/billing/billing.service.ts:351-373 | the matching row is updated in place, or a new one appended; it gets the price, tier, status and period end; the start date is kept on update and set from Stripe on creation; no other row changes |
| Billing.UpsertTwiceAddsNothing | backend/src/billing/billing.service.ts:351-373 | upserting the same subscription again adds no row |
| Billing.UpsertSyncsUserTier | backend/src/billing/billing.service.ts:378-380 | after an upsert the user's coarse tier is that of the written row, and no other user changes |
| Billing.UpsertFromStripeSubscription | backend/src/billing/billing.service.ts:328-381 | the method changes the two tables exactly as Upsert describes |
| Billing.Upsert | backend/src/billing/billing.service.ts:328-381 | specification function; UpsertKeepsUnique, UpsertWrites, UpsertTwiceAddsNothing and UpsertSyncsUserTier state its properties |
| Billing.CheckoutOutsideSubscriptionMode | backend/src/billing/billing.service.ts:264-308 | outside subscription mode no subscription changes, and at most the session's user gets the customer id, only when both ids are present |
| Billing.HandleCheckoutSessionCompleted | backend/src/billing/billing.service.ts:264-308 | the method changes the tables exactly as Checkout describes |
| Billing.HandleSubscriptionChanged | backend/src/billing/billing.service.ts:310-326 | the method changes the tables exactly as SubscriptionChanged describes |
| Billing.HandleStripeWebhook | backend/src/billing/billing.service.ts:170-221 | without a secret it fails with its message, with a bad signature with "Invalid signature", both leaving the tables unchanged; otherwise it succeeds and dispatches on the event type |
| Billing.Dispatch | backend/src/billing/billing.service.ts:195-212 | specification function: a completed checkout goes to the checkout handler, the three subscription events to the subscription handler, and any other event changes nothing |
| Billing.GetMySubscriptionSummary | backend/src/billing/billing.service.ts:223-262 | with no subscription the summary is free and inactive with null ids; otherwise it is the latest-started row's |
| Plan.PriceToTier | backend/src/billing/plan.ts:36-42 | the inverse table has exactly the four price ids as keys, each mapped to a paid tier with that price id |
| Plan.PriceToTierInverts | backend/src/billing/plan.ts:26-42 | with distinct price ids, looking up a tier's price id gives the tier back |
| Plan.SharedIdLastWins | backend/src/billing/plan.ts:36-42 | when ids are shared the later table entry wins |
| Plan.Limits | backend/src/billing/plan.ts:46-82 | only free has watermarked exports, limited library access and 3 contracts a month; paid tiers have 9999 and priority AI; team features exactly for business tiers |
| Plan.TrialLimits | backend/src/billing/plan.ts:86-115 | trial limits exist exactly for the paid tiers, each with 5 contracts a month, no watermark and team features exactly for business |
| Plan.TrialIsPlanWithFive | backend/src/billing/plan.ts:46-115 | a paid tier's trial limits are its normal limits with 5 contracts a month |
| Auth.NormalizeEmail | backend/src/auth/auth.service.ts:43 | a normalised email has no upper-case letter and no white space at either end |
| Auth.NormalizeEmailIsTrimmedLower | backend/src/auth/auth.service.ts:43 | the normalised email is the lower-cased email with the white space at its two ends removed and nothing else changed |
| Auth.NormalizeEmailIdempotent | backend/src/auth/auth.service.ts:43 | normalising an email twice changes nothing more |
| Auth.Signup | backend/src/auth/auth.service.ts:42-58 | sign-up fails with "Email already registered" exactly when a user has the normalised email, changing nothing; otherwise it appends the new user with the given hash and returns its id and email for the token; distinct emails stay distinct |
| Auth.Login | backend/src/auth/auth.service.ts:60-81 | an unknown email and a wrong password fail as invalid credentials, an account without a password fails with its own message, and a matching password yields the user's id and email |
| Auth.SafeHidesOnlySecrets | backend/src/auth/auth.service.ts:86-92 | two users look the same through `me` exactly when they differ only in the password hash and reset token fields |
| Auth.Me | backend/src/auth/auth.service.ts:83-93 | an unknown user is unauthorised; a known one gets their row without the secret fields |
| Auth.ResetCode | backend/src/auth/auth.service.ts:106-108 | the code is six digits that read back as the random draw |
| Auth.ForgotPassword | backend/src/auth/auth.service.ts:96-120 | an unknown email changes nothing and sends no code; a known one gets the code, and only that user's row changes, to hold the code's hash and an expiry 15 minutes on |
| Auth.IssuedCodeWindow | backend/src/auth/auth.service.ts:110-140 | a freshly issued code is accepted exactly while the 15 minutes have not passed and the token hashes like the code |
| Auth.ResetCodeUsedUp | backend/src/auth/auth.service.ts:142-144 | after a reset no token is accepted again |
| Auth.ResetPassword | backend/src/auth/auth.service.ts:122-148 | no email fails as "Email is required"; an unknown user, a missing or expired token or a wrong hash fails as an invalid token, changing nothing; otherwise only that user changes, to the new hash with the token cleared |
| Contracts.ResolveType | backend/src/contracts/contracts.service.ts:33-43 | a given id is looked up by id; otherwise a given slug by slug; with neither there is no type; a type is found exactly when one matches |
| Contracts.OwnerName | backend/src/contracts/contracts.service.ts:50 | the owner shown is the company name, else the full name, else the email |
| Contracts.DraftTitle | backend/src/contracts/contracts.service.ts:49-50 | a non-empty given title wins; otherwise "<type> – Draft for <owner>" |
| Contracts.DraftTitleNonEmpty | backend/src/contracts/contracts.service.ts:49-50 | a draft's title is never empty |
| Contracts.DraftJurisdiction | backend/src/contracts/contracts.service.ts:52-53 | a non-empty given jurisdiction wins, otherwise the type's default |
| Contracts.NewDraft | backend/src/contracts/contracts.service.ts:55-64 | a new draft belongs to the user and the type, is in progress at version 1 with empty questionnaire state and AI inputs, and has the defaulted title and jurisdiction |
| Contracts.CreateDraft | backend/src/contracts/contracts.service.ts:29-67 | an unknown user or type fails with its message and saves nothing; otherwise exactly the new draft is appended |
| Contracts.GetDraftForUser | backend/src/contracts/contracts.service.ts:77-99 | a missing draft is not found, another user's draft is forbidden, and an owned draft comes with its messages in order |
| Contracts.AddMessageToDraft | backend/src/contracts/contracts.service.ts:101-118 | the message is stored exactly when the draft exists and is the user's, and the reply lists the draft's earlier messages followed by it |
| Onboarding.GetStatus | backend/src/onboarding/onboarding.service.ts:17-27 | an unknown user is not found; otherwise the four onboarding fields of the user are returned |
| Onboarding.Completed | backend/src/onboarding/onboarding.service.ts:33-55 | omitted name and company are kept, the other business fields are cleared when omitted, categories default to empty, onboarding is marked complete, acknowledgements are stamped only when given, a missing tier becomes free, and nothing else changes |
| Onboarding.CompletedIdempotent | backend/src/onboarding/onboarding.service.ts:33-55 | completing twice with the same answers at the same time gives the same user |
| Onboarding.CompleteSubscriptions | backend/src/onboarding/onboarding.service.ts:59-76 | a user without a subscription gets one active free subscription; one who has some keeps them unchanged |
| Onboarding.CompleteTwiceCreatesOne | backend/src/onboarding/onboarding.service.ts:59-76 | completing again creates no further subscription |
| Onboarding.CompleteOnboarding | backend/src/onboarding/onboarding.service.ts:29-79 | an unknown user fails and changes nothing; otherwise the tables become Complete of the old ones |
| Users.Apply | backend/src/users/users.service.ts:26-30 | an omitted field keeps the old value; a given one, null included, replaces it |
| Users.Updated | backend/src/users/users.service.ts:26-30 | the three patchable fields follow Apply and every other field is unchanged |
| Users.UpdatedChangesOnlyNamed | backend/src/users/users.service.ts:26-30 | a field changes only when the patch names it |
| Users.EmptyPatchIsIdentity | backend/src/users/users.service.ts:26-30 | an empty patch leaves the user unchanged |
| Users.UpdatesCompose | backend/src/users/users.service.ts:26-30 | two patches in a row equal one patch where the later field wins |
| Users.UpdateProfile | backend/src/users/users.service.ts:22-33 | an unknown user is not found and nothing changes; otherwise only that user's row changes, to Updated, which is returned |
| TemplateIngest.ToBool | backend/src/seeds/seed-template-ingest.ts:39-56 | a boolean cell is itself; a number is true unless zero; "yes"/"true" and "no"/"false" are read ignoring case and surrounding space; anything else gives the default |
| TemplateIngest.ToBoolIgnoresCase | backend/src/seeds/seed-template-ingest.ts:47 | lower-casing a text cell first does not change how it reads |
| TemplateIngest.TrimLowerCommute | backend/src/seeds/seed-template-ingest.ts:47 | trimming and lower-casing may be done in either order |
| TemplateIngest.Trunc | backend/src/seeds/seed-template-ingest.ts:63 | truncation rounds toward zero: the integer lies between zero and the number, less than one away |
| TemplateIngest.ToInt | backend/src/seeds/seed-template-ingest.ts:58-64 | null, undefined and the empty string give nothing; otherwise there is an integer exactly when the number is finite, and it is that number truncated |
| TemplateIngest.ToIntOfInteger | backend/src/seeds/seed-template-ingest.ts:58-64 | an integral number cell reads back as itself |
| TemplateIngest.SplitCsv | backend/src/seeds/seed-template-ingest.ts:66-77 | a falsy cell gives no entries; text is split on commas; every entry is trimmed and non-empty, and entries split from text hold no comma |
| TemplateIngest.ReadHeader | backend/src/seeds/seed-template-ingest.ts:130-142 | a workbook is skipped exactly when its trimmed contract type code is empty; the name is the trimmed given name, or the code when none is given; the version the trimmed given version, or "0.0.0"; the export type the trimmed given one, present exactly when the cell is truthy |
| TemplateIngest.NoMetadataSkips | backend/src/seeds/seed-template-ingest.ts:130-137 | a workbook without metadata rows is skipped |
| TemplateIngest.FirstWith | backend/src/seeds/seed-template-ingest.ts:253-256 | finds the first clause in a category, or reports that none is in it |
| TemplateIngest.CategoriesMeaning | backend/src/seeds/seed-template-ingest.ts:252-263 | every clause's category is listed once, in order of first appearance, named after the first clause that carries it |
| TemplateIngest.CollectCategories | backend/src/seeds/seed-template-ingest.ts:252-257 | the loop with its seen-set yields exactly Categories of the clauses, whose meaning CategoriesMeaning states |
| ContractTypeSeed.Slugify | backend/src/seeds/seed-contract-types.ts:184-186 | a slug is lower-case letters and digits in runs joined by single dashes, with no dash at either end |
| ContractTypeSeed.SlugifyJoinsWords | backend/src/seeds/seed-contract-types.ts:184-186 | the slug is the lower-cased name's maximal runs of `[a-z0-9]`, all of them and in order, joined by single dashes |
| ContractTypeSeed.SlugifyFixesSlugs | backend/src/seeds/seed-contract-types.ts:184-186 | a slug is its own slug |
| ContractTypeSeed.SlugifyIdempotent | backend/src/seeds/seed-contract-types.ts:184-186 | slugifying twice is slugifying once |
| ContractTypeSeed.NewType | backend/src/seeds/seed-contract-types.ts:200-211 | a new type takes the seed's name, slug of its name, category and complexity, is active, and defaults its jurisdiction to "AU" |
| ContractTypeSeed.Refreshed | backend/src/seeds/seed-contract-types.ts:212-217 | an existing type only has its primary form keys replaced, and only when the seed gives some |
| ContractTypeSeed.SlugIndex | backend/src/seeds/seed-contract-types.ts:198 | finds the first type with the slug, or reports that none has it |
| ContractTypeSeed.NewQuestion | backend/src/seeds/seed-contract-types.ts:227-237 | a new question copies the seed and defaults to a required text question of standard complexity |
| ContractTypeSeed.QuestionIndex | backend/src/seeds/seed-contract-types.ts:221-223 | finds a question with the type and key, or reports that none exists |
| ContractTypeSeed.AddQuestionSound | backend/src/seeds/seed-contract-types.ts:220-239 | adding a question keeps the old rows, keeps (type, key) unique, and leaves the question present |
| ContractTypeSeed.AddQuestionsSound | backend/src/seeds/seed-contract-types.ts:219-240 | after the loop every seeded key is present for the type, old rows are kept and no (type, key) is duplicated |
| ContractTypeSeed.SeedTypeSlugs | backend/src/seeds/seed-contract-types.ts:195-217 | seeding a type keeps slugs unique and leaves the seeded row in the table |
| ContractTypeSeed.SeedTypeQuestions | backend/src/seeds/seed-contract-types.ts:195-240 | seeding a type keeps old questions, keeps (type, key) unique and leaves every seeded question under the seeded row |
| ContractTypeSeed.SeedQuestions | backend/src/seeds/seed-contract-types.ts:219-240 | the question table ends as the questions added one by one |
| ContractTypeSeed.SeedOne | backend/src/seeds/seed-contract-types.ts:196-240 | both tables end as one seed step of the old catalog |
| ContractTypeSeed.Run | backend/src/seeds/seed-contract-types.ts:188-245 | both tables end as every seed applied in turn to the old catalog |
| SetUserPlan.TierFor | backend/scripts/set-user-plan.ts:15-25 | a tier name has an entry exactly when it is one of the seven keys |
| SetUserPlan.TierLookupAsWritten | backend/scripts/set-user-plan.ts:15-26 | the object lookup also answers for the inherited names "constructor" and "__proto__", with neither tier; an own key gives its entry |
| SetUserPlan.ParseArgsAsWritten | backend/scripts/set-user-plan.ts:6-33 | as ParseArgs, except that the two inherited names are accepted with no tier |
| SetUserPlan.InheritedTierNameAccepted | backend/scripts/set-user-plan.ts:25-32 | the tier argument "constructor" passes the guard as written with no tier, where ParseArgs rejects it as an unknown tier |
| SetUserPlan.TierTableConsistent | backend/scripts/set-user-plan.ts:15-23 | each entry's user tier is the one its billing tier maps to, and every billing tier is reachable by its own name |
| SetUserPlan.AliasesAreMonthly | backend/scripts/set-user-plan.ts:16-20 | "business" and "pro" mean their monthly plans |
| SetUserPlan.ParseArgs | backend/scripts/set-user-plan.ts:6-33 | no email is a usage error; the tier name defaults to business_monthly and is lower-cased; an unknown name is an error naming it; otherwise the lower-cased email and the entry's tiers are selected |
| SetUserPlan.DefaultTierIsBusinessMonthly | backend/scripts/set-user-plan.ts:9 | an email alone selects the business monthly plan |
| SetUserPlan.NewestFor | backend/scripts/set-user-plan.ts:52-55 | finds a subscription of the user created no earlier than any other of theirs, or reports they have none |
| SetUserPlan.Activated | backend/scripts/set-user-plan.ts:57-61 | the subscription gets the tier and active status, keeps a start date it had, and nothing else changes |
| SetUserPlan.SetSubsNewestActive | backend/scripts/set-user-plan.ts:51-74 | for a paid tier the user's newest subscription ends active on that tier; the free tier leaves subscriptions alone |
| SetUserPlan.SetSubsOthersUnchanged | backend/scripts/set-user-plan.ts:51-74 | other users' subscriptions are unchanged |
| SetUserPlan.SetSubsIdempotent | backend/scripts/set-user-plan.ts:51-74 | running the script twice with the same plan at the same time equals running it once |
| SetUserPlan.Run | backend/scripts/set-user-plan.ts:35-80 | an unknown email fails with "User not found" and changes nothing; otherwise both tables become SetPlan of the old ones |
| Catalog.CategoryLabel | frontend/src/services/contractCatalogService.ts:25-39 | the four known categories get their labels; any other keeps its length and letters after the first, whose first letter is no longer lower-case |
| Catalog.FallbackLabelKeepsLetters | frontend/src/services/contractCatalogService.ts:37 | an unknown category's label differs from it only in case |
| Catalog.CategoryLabelIdempotent | frontend/src/services/contractCatalogService.ts:25-39 | labelling a label changes nothing |
| Catalog.UiComplexityOf | frontend/src/services/contractCatalogService.ts:41-54 | basic is simple, complex is complex, every other level is moderate |
| Catalog.QuestionEstimate | frontend/src/services/contractCatalogService.ts:56-69 | basic, standard and complex estimate 8, 15 and 25 questions, and any other level 12 |
| Catalog.EstimateFollowsComplexity | frontend/src/services/contractCatalogService.ts:41-69 | among the three levels the estimate grows exactly with the UI complexity, and distinct levels get distinct estimates |
| Catalog.UnknownLevelEstimate | frontend/src/services/contractCatalogService.ts:51-67 | an unknown level shows as moderate like standard, but with a smaller estimate |
| Catalog.ToUi | frontend/src/services/contractCatalogService.ts:71-79 | a UI type keeps id and name and takes the mapped label, complexity and estimate |
| Catalog.FormRoundTrip | frontend/src/services/contractCatalogService.ts:87-95 | form-encoding a value and decoding it gives the value back |
| Catalog.SerializeRoundTrip | frontend/src/services/contractCatalogService.ts:95 | a serialised list of pairs parses back to the same pairs in order |
| Catalog.QueryPairsContents | frontend/src/services/contractCatalogService.ts:87-93 | q is sent exactly when non-empty and first; category exactly when neither empty nor "all"; limit exactly when non-zero and last; no other name |
| Catalog.SearchPathMark | frontend/src/services/contractCatalogService.ts:95-96 | the path has a question mark exactly when some parameter is sent, and is the bare path otherwise |
| Catalog.SearchPathQuery | frontend/src/services/contractCatalogService.ts:95-96 | with parameters the path is the base path, a question mark and a query that parses back to the sent pairs |
| Catalog.NoParamsNoQuery | frontend/src/services/contractCatalogService.ts:86-96 | no parameters, or an empty q, category "all" and limit 0, request the bare path |
| Catalog.SearchTypes | frontend/src/services/contractCatalogService.ts:82-100 | the result maps every type fetched from the built path to its UI form, in order |

## Left out

- Language-model calls: the completion service is a function parameter that returns text and token usage. In the chat path it always returns a reply, so a model call that raises, which `answer_contract_chat` lets propagate, is not represented. The prompt texts live in a `prompts` module that is not part of this model; they are opaque strings.
- Database, ORM, Stripe SDK, mailer, bcrypt, SHA-256 and JWT: these are tables, function parameters or given values. Ids that the database or `uuid` would generate are supplied by the caller.
- Row order from the database: a query result is the table's order. `listDraftsForUser` (backend/src/contracts/contracts.service.ts:69-75) is not modelled, because its ordering and limit belong to the database.
- `Math.random`, `Date.now`, `time.time()` and `new Date()` are inputs. Drafting takes one `now` that stamps every progress write of a run, where the source calls `time.time()` afresh for each write.
- Concurrency: the progress store's lock is left out, and the store is modelled as a sequential map.
- The `lru_cache` on `load_precedent_outline` is treated as transparent. The file system is a map from path to paragraphs.
- PrecedentLoader.LoadPrecedentOutline: the path is used as given, both as the key of the document map and in the error message; `Path(path_str)` normalisation (`./a/` read as `a`, doubled slashes collapsed) is not modelled, so the message prints the raw path where the source prints the normalised one.
- Reading a DOCX: unzipping the document, reading the XML and joining runs into paragraphs are not part of this model. This covers `extract_docx_paragraphs` in mlend/precedent_loader.py:62-74 and backend/scripts/ingest-precedents.ts:73-94. Outlines are built from a given paragraph list.
- The ingest script's directory walk and its saving of precedent rows are not part of this model.
- Floating point: percentages are exact rationals with Python's round-half-even, and caps ratios are integer comparisons. Numeric answer values are integers. The caller's `limit` is an integer, so a NaN or fractional limit is not modelled.
- Nested answer lists: answer lists hold scalars only.
- Case mapping and character classes are ASCII only. Python's `str.isupper`, `lower` and `isspace` and JavaScript's `toUpperCase` and `\s` accept more characters than the model does (`isspace` also counts `\x1c`-`\x1f`).
- JavaScript's `String(value)` for a non-string spreadsheet cell, and `Number(value)` for a string cell, are function parameters of the template ingest model.
- The template ingest script's workbook reading, its other sheet mappings, its upserts and `generated_at` are not part of this model. Only the cell conversions, the metadata header rule and the category de-duplication are modelled.
- `createCheckoutSession` and `createPortalSession` in backend/src/billing/billing.service.ts are Stripe SDK calls and are not modelled. Webhook signature checking is a given verdict.
- Logging and console output are left out.
- Catalog.FormDecode: it returns no value on invalid UTF-8, where the URL standard substitutes U+FFFD. Only the round trip of encoded text is claimed.
- Controller methods that call service methods which do not exist (`downloadDraft`, `startConversation`, `generateContract` in backend/src/contracts/contracts.controller.ts) are not modelled.
- PdfLayout.XrefEntryAt: the 20-byte cross-reference entry is proved only for files under 10^10 bytes, because `padStart(10)` does not shorten a longer offset.
- Orchestrator.RequireOutline: a lookup result is either no outline or an outline record, so an outline that is an empty dictionary, which `if not outline` (mlend/orchestrator.py:344) treats as missing, is not represented; such a record would fail with the "No precedent sections found" message here instead of "No precedent outline found".
- SetUserPlan.Run: runs only on a selection ParseArgs accepts. The run that follows the tier names "constructor" and "__proto__" as written, with both tiers undefined, is not modelled: the user would be saved without a tier change, and the newest subscription activated on its old tier, or a new subscription inserted without a tier, which the non-null `tier` column (backend/src/billing/entities/subscription.entity.ts:38-39) rejects.
- ContractText.HardSplit: the pieces' width counts lengths in Unicode code points (Dafny characters); the source's `length` and `slice` count UTF-16 code units, so a text with characters outside the Basic Multilingual Plane (an emoji, say) is measured shorter here, and a cut through a surrogate pair, which `Buffer.from` then writes as the bytes EF BF BD, is not modelled.
- ContractText.SplitLongWord: the loop's width test counts lengths in Unicode code points (Dafny characters); the source's `length` and `slice` count UTF-16 code units, so a text with characters outside the Basic Multilingual Plane (an emoji, say) is measured shorter here, and a cut through a surrogate pair, which `Buffer.from` then writes as the bytes EF BF BD, is not modelled.
- ContractText.WrapLineProps: the width bound counts lengths in Unicode code points (Dafny characters); the source's `length` and `slice` count UTF-16 code units, so a text with characters outside the Basic Multilingual Plane (an emoji, say) is measured shorter here, and a cut through a surrogate pair, which `Buffer.from` then writes as the bytes EF BF BD, is not modelled.
- ContractText.WrapText: the width bound counts lengths in Unicode code points (Dafny characters); the source's `length` and `slice` count UTF-16 code units, so a text with characters outside the Basic Multilingual Plane (an emoji, say) is measured shorter here, and a cut through a surrogate pair, which `Buffer.from` then writes as the bytes EF BF BD, is not modelled.
- ContractText.WrappedProps: the width bound counts lengths in Unicode code points (Dafny characters); the source's `length` and `slice` count UTF-16 code units, so a text with characters outside the Basic Multilingual Plane (an emoji, say) is measured shorter here, and a cut through a surrogate pair, which `Buffer.from` then writes as the bytes EF BF BD, is not modelled.
- ContractText.GetHeadingInfoSpec: the 140 limit (MaxHeadingLength) counts lengths in Unicode code points (Dafny characters); the source's `length` and `slice` count UTF-16 code units, so a text with characters outside the Basic Multilingual Plane (an emoji, say) is measured shorter here, and a cut through a surrogate pair, which `Buffer.from` then writes as the bytes EF BF BD, is not modelled.
- ContractText.HeadingShort: the 140 limit counts lengths in Unicode code points (Dafny characters); the source's `length` and `slice` count UTF-16 code units, so a text with characters outside the Basic Multilingual Plane (an emoji, say) is measured shorter here, and a cut through a surrogate pair, which `Buffer.from` then writes as the bytes EF BF BD, is not modelled.
- ContractText.FormatContractProps: the heading bound of 140 counts lengths in Unicode code points (Dafny characters); the source's `length` and `slice` count UTF-16 code units, so a text with characters outside the Basic Multilingual Plane (an emoji, say) is measured shorter here, and a cut through a surrogate pair, which `Buffer.from` then writes as the bytes EF BF BD, is not modelled.
- ContractText.PushHeading: wrapping at 90 counts lengths in Unicode code points (Dafny characters); the source's `length` and `slice` count UTF-16 code units, so a text with characters outside the Basic Multilingual Plane (an emoji, say) is measured shorter here, and a cut through a surrogate pair, which `Buffer.from` then writes as the bytes EF BF BD, is not modelled.
- ContractText.PushList: wrapping at 92 counts lengths in Unicode code points (Dafny characters); the source's `length` and `slice` count UTF-16 code units, so a text with characters outside the Basic Multilingual Plane (an emoji, say) is measured shorter here, and a cut through a surrogate pair, which `Buffer.from` then writes as the bytes EF BF BD, is not modelled.
- ContractText.RenderLinesProps: the width bound counts lengths in Unicode code points (Dafny characters); the source's `length` and `slice` count UTF-16 code units, so a text with characters outside the Basic Multilingual Plane (an emoji, say) is measured shorter here, and a cut through a surrogate pair, which `Buffer.from` then writes as the bytes EF BF BD, is not modelled.
- IngestPrecedents.HeadingsAgreeOnOneLine: the agreement holds for the model's ASCII letter classes only. In the source the script's letters are `[A-Za-z]` (backend/scripts/ingest-precedents.ts:44-46) while the loader uses `isalpha` and `isupper` (mlend/precedent_loader.py:29-30, 41-47), so "ÉTÉ" is a heading for the loader only and "RÉSUMé" for the script only; the script's 120 limit also counts UTF-16 units where Python counts code points.
- IngestPrecedents.ExtractPlaceholders: the keys are sorted in code-point order, as Python's `sorted` does; the script's `Array.from(found).sort()` compares UTF-16 code units instead. The two orders differ when keys mix characters above U+FFFF with characters from U+E000 to U+FFFF. For example, the script puts "\u{1F600}" (surrogates D83D DE00) before "\uFF21", and the model puts it after.
- IngestPrecedents.BuildOutline: the outline's placeholders come from ExtractPlaceholders, so they share its code-point ordering gap.
- IngestPrecedents.OutlinesAgreeOnOneLine: the same ASCII restriction as HeadingsAgreeOnOneLine; on paragraphs with non-ASCII letters the two source programs can choose different headings and so build different outlines. Its placeholders are also in code-point order, not the script's UTF-16 order; see ExtractPlaceholders.
- Auth.Me: the user record has no `created_at` and `updated_at` columns, so the timestamps `me` returns with the safe row (backend/src/auth/auth.service.ts:83-93) are not modelled.

## Findings

| source | as written | input that shows it | evidently intended | confidence | as-written member | corrected member |
|---|---|---|---|---|---|---|
| mlend/orchestrator.py:607-611 | `generate_contract` reads `req.precedent_outline`, a field that `GenerateContractRequest` (mlend/base_models.py:41-46) does not declare, so the read raises `AttributeError`; progress is marked failed and the error re-raised | any request, e.g. one with a contract type that has a precedent outline in the database | use a pre-fetched outline when the caller supplies one, else look it up, then draft and stitch | not executed | Orchestrator.GenerateContractAsWritten | Orchestrator.GenerateContract |
| backend/scripts/set-user-plan.ts:25-26 | `tierMap[tierArg]` on a plain object literal also finds members inherited from `Object.prototype`, so the `!selection` guard lets the names "constructor" and "__proto__" through, and the spread selection has no `userTier` and no `billingTier` | `set-user-plan.ts someone@example.com constructor` | only the seven tier names are accepted; any other name fails with "Unknown tier" | not executed | SetUserPlan.InheritedTierNameAccepted | SetUserPlan.ParseArgs |
