/** The answer reconciler of the drafting service: merging the form and chat
    answer maps, deciding which answers are present, defaulting "standard
    clause" questions to "Yes", splitting questions into answered and missing
    ones, and the one-time summary shown when a draft is ready. All of it is
    pure (mlend/orchestrator.py). */
module Answers {
  import opened Strings

  /** A list element as it can appear in a JSON answer. */
  datatype Scalar = SNull | SText(s: string) | SBool(b: bool) | SInt(n: int)

  /** A value in an answer map (a JSON value; nested lists are not modelled). */
  datatype AnswerValue =
    | Null
    | Text(s: string)
    | Bool(b: bool)
    | Number(n: int)
    | Items(xs: seq<Scalar>)

  type AnswerMap = map<string, AnswerValue>

  datatype Question = Question(key: string, labelText: string, description: Option<string>, required: bool)

  /** Keys with this prefix hold bookkeeping flags, never answers. */
  const ReservedPrefix: string := "__"
  const ReadySummaryFlag: string := "__ready_summary_sent"
  /** Written in two pieces only to keep the verifier's literal reasoning short. */
  const WelcomeMessage: string := "I'm here to help tailor " + "this agreement to your specific needs."
  const StandardClauseKeywords: seq<string> := [
    "boilerplate",
    "standard exclusion",
    "standard exclusions",
    "standard clause",
    "standard clauses",
    "standard provision",
    "standard provisions"
  ]
  /** Maximum number of answered items shown in the ready summary. */
  const SummaryMaxItems: nat := 8

  predicate IsReserved(key: string) { StartsWith(key, ReservedPrefix) }

  /** `d.get(key)`: an absent key reads as `None`. */
  function Lookup(m: AnswerMap, key: string): AnswerValue {
    if key in m then m[key] else Null
  }

  /** Python's `str(x)` of a list element. */
  function ScalarText(x: Scalar): string {
    match x
    case SNull => "None"
    case SText(s) => s
    case SBool(b) => if b then "True" else "False"
    case SInt(n) => IntToString(n)
  }

  /** Python's truthiness of an answer value. */
  predicate Truthy(v: AnswerValue) {
    match v
    case Null => false
    case Text(s) => s != []
    case Bool(b) => b
    case Number(n) => n != 0
    case Items(xs) => xs != []
  }

  // ---------------------------------------------------------------- merging

  function WithoutReserved(m: AnswerMap): (r: AnswerMap)
    ensures forall k :: k in r <==> k in m && !IsReserved(k)
    ensures forall k :: k in r ==> r[k] == m[k]
  {
    map k | k in m && !IsReserved(k) :: m[k]
  }

  /** Chat answers overlaid with form answers, both without reserved keys
      (orchestrator.py:131-147). */
  function MergeAnswers(form: AnswerMap, chat: AnswerMap): (merged: AnswerMap)
    ensures forall k :: k in merged ==> !IsReserved(k)
    ensures forall k :: k in merged <==> (k in form || k in chat) && !IsReserved(k)
    ensures forall k :: k in merged && k in form ==> merged[k] == form[k]
    ensures forall k :: k in merged && k !in form ==> merged[k] == chat[k]
  {
    WithoutReserved(chat) + WithoutReserved(form)
  }

  // ------------------------------------------------------------ presence

  /** `str(x).strip()` of a list element. */
  function TrimmedText(x: Scalar): string { Trim(ScalarText(x)) }

  /** The trimmed, non-blank `str()` of each list element, in order. */
  function NonBlankParts(xs: seq<Scalar>): (parts: seq<string>)
    ensures forall i :: 0 <= i < |parts| ==> parts[i] != []
    ensures |parts| <= |xs|
  {
    if xs == [] then []
    else
      var t := TrimmedText(xs[0]);
      (if t != [] then [t] else []) + NonBlankParts(xs[1..])
  }

  /** The parts are exactly the non-empty `TrimmedText` of the elements, in
      list order. */
  lemma {:induction false} NonBlankPartsIsFilter(xs: seq<Scalar>)
    ensures NonBlankParts(xs) == Filter(Map(xs, TrimmedText), NonEmptyText)
  {
    if xs != [] {
      NonBlankPartsIsFilter(xs[1..]);
      var t := TrimmedText(xs[0]);
      var texts := Map(xs, TrimmedText);
      assert texts[0] == t && texts[1..] == Map(xs[1..], TrimmedText);
      assert Filter(texts, NonEmptyText) == (if t != [] then [t] else []) + Filter(texts[1..], NonEmptyText);
    }
  }

  lemma {:induction false} NonBlankPartsEmpty(xs: seq<Scalar>)
    ensures NonBlankParts(xs) == [] <==> forall i :: 0 <= i < |xs| ==> IsBlank(ScalarText(xs[i]))
  {
    if xs != [] {
      TrimEmptyIffBlank(ScalarText(xs[0]));
      NonBlankPartsEmpty(xs[1..]);
      assert forall i :: 1 <= i < |xs| ==> xs[i] == xs[1..][i - 1];
    }
  }

  /** An answer value is absent when it is None, a blank string, or a list
      whose every element is blank: the values `_normalize_answer_value`
      maps to None (orchestrator.py:150-157). */
  predicate IsAbsent(v: AnswerValue) {
    match v
    case Null => true
    case Text(s) => IsBlank(s)
    case Items(xs) => forall i :: 0 <= i < |xs| ==> IsBlank(ScalarText(xs[i]))
    case _ => false
  }

  /** `_normalize_answer_value` (orchestrator.py:150-157). */
  function NormalizeAnswerValue(v: AnswerValue): (r: Option<string>)
    ensures r.Some? ==> r.value != []
  {
    match v
    case Null => None
    case Items(xs) =>
      var parts := NonBlankParts(xs);
      if parts == [] then None else Some(Join(parts, ", "))
    case Text(s) => var t := Trim(s); if t == [] then None else Some(t)
    case Bool(b) => Some(if b then "True" else "False")
    case Number(n) => var t := Trim(IntToString(n)); if t == [] then None else Some(t)
  }

  /** A value normalises to nothing exactly when it is absent. */
  lemma NormalizeNoneIffAbsent(v: AnswerValue)
    ensures NormalizeAnswerValue(v).None? <==> IsAbsent(v)
  {
    match v
    case Null =>
    case Items(xs) => NonBlankPartsEmpty(xs);
    case Text(s) => TrimEmptyIffBlank(s);
    case Bool(b) =>
    case Number(n) =>
      var s := IntToString(n);
      TrimEmptyIffBlank(s);
      assert !IsSpace(s[0]) by {
        if n >= 0 { assert IsDigit(NatToString(n)[0]); } else { assert s[0] == '-'; }
      }
  }

  /** What each kind of value normalises to: None to nothing; a list to its
      non-blank trimmed elements joined by ", ", or nothing when there are
      none; a string to its trimmed text, or nothing when blank; a boolean to
      "True" or "False"; a number to its decimal text. */
  lemma NormalizeAnswerValueCases(v: AnswerValue)
    ensures v.Null? ==> NormalizeAnswerValue(v) == None
    ensures v.Items? ==>
              var parts := Filter(Map(v.xs, TrimmedText), NonEmptyText);
              NormalizeAnswerValue(v) == if parts == [] then None else Some(Join(parts, ", "))
    ensures v.Text? ==> NormalizeAnswerValue(v) == if IsBlank(v.s) then None else Some(Trim(v.s))
    ensures v.Bool? ==> NormalizeAnswerValue(v) == Some(if v.b then "True" else "False")
    ensures v.Number? ==> NormalizeAnswerValue(v) == Some(IntToString(v.n))
  {
    match v
    case Null =>
    case Items(xs) => NonBlankPartsIsFilter(xs);
    case Text(s) => TrimEmptyIffBlank(s);
    case Bool(b) =>
    case Number(n) =>
      var s := IntToString(n);
      assert !IsSpace(s[0]) && !IsSpace(s[|s| - 1]) by {
        if n >= 0 {
          assert IsDigit(NatToString(n)[0]) && IsDigit(NatToString(n)[|s| - 1]);
        } else {
          assert s[0] == '-' && s[|s| - 1] == NatToString(-n)[|s| - 2];
          assert IsDigit(NatToString(-n)[|s| - 2]);
        }
      }
      TrimOfUnpadded(s);
  }

  /** A question counts as answered when its key maps to a present value. */
  predicate HasAnswer(m: AnswerMap, key: string) {
    NormalizeAnswerValue(Lookup(m, key)).Some?
  }

  // --------------------------------------------------- standard clauses

  function AnyKeywordIn(lowered: string, keywords: seq<string>): bool {
    keywords != [] && (Contains(lowered, keywords[0]) || AnyKeywordIn(lowered, keywords[1..]))
  }

  /** `_contains_standard_clause_language` (orchestrator.py:160-164). */
  predicate ContainsStandardClauseLanguage(text: string) {
    text != [] && AnyKeywordIn(Lower(text), StandardClauseKeywords)
  }

  /** `[p for p in parts if p]`: the non-empty parts, in order. */
  function NonEmptyParts(parts: seq<string>): (r: seq<string>)
    ensures r == Filter(parts, NonEmptyText)
    ensures forall i :: 0 <= i < |r| ==> r[i] != []
  {
    if parts == [] then []
    else (if parts[0] != [] then [parts[0]] else []) + NonEmptyParts(parts[1..])
  }

  /** The text searched for keywords: key, label and description joined by
      single spaces, then trimmed (orchestrator.py:167-170). */
  function QuestionText(q: Question): string {
    var desc := if q.description.Some? then q.description.value else "";
    Trim(Join(NonEmptyParts([q.key, q.labelText, desc]), " "))
  }

  predicate IsStandardClauseQuestion(q: Question) {
    ContainsStandardClauseLanguage(QuestionText(q))
  }

  /** A question that receives the default "Yes": a standard-clause question
      without a present answer. */
  predicate NeedsDefault(q: Question, combined: AnswerMap) {
    IsStandardClauseQuestion(q) && !HasAnswer(combined, q.key)
  }

  /** The keys of the questions that receive the default. */
  function DefaultKeys(questions: seq<Question>, combined: AnswerMap): set<string> {
    set i | 0 <= i < |questions| && NeedsDefault(questions[i], combined) :: questions[i].key
  }

  lemma DefaultKeysCons(questions: seq<Question>, combined: AnswerMap)
    requires questions != []
    ensures DefaultKeys(questions, combined) ==
            (if NeedsDefault(questions[0], combined) then {questions[0].key} else {})
            + DefaultKeys(questions[1..], combined)
  {
    var rest := questions[1..];
    forall k | k in DefaultKeys(rest, combined) ensures k in DefaultKeys(questions, combined) {
      var i :| 0 <= i < |rest| && NeedsDefault(rest[i], combined) && rest[i].key == k;
      assert questions[i + 1] == rest[i];
    }
    forall k | k in DefaultKeys(questions, combined) && k !in DefaultKeys(rest, combined)
      ensures NeedsDefault(questions[0], combined) && k == questions[0].key
    {
      var i :| 0 <= i < |questions| && NeedsDefault(questions[i], combined) && questions[i].key == k;
      assert i == 0;
    }
  }

  /** The defaults themselves: "Yes" for every key in `DefaultKeys`. */
  function DefaultsFor(questions: seq<Question>, combined: AnswerMap): (d: AnswerMap)
    ensures forall k :: k in d ==> d[k] == Text("Yes")
    ensures d.Keys == DefaultKeys(questions, combined)
  {
    if questions == [] then map[]
    else
      var rest := DefaultsFor(questions[1..], combined);
      DefaultKeysCons(questions, combined);
      if NeedsDefault(questions[0], combined) then rest[questions[0].key := Text("Yes")] else rest
  }

  /** `_apply_standard_defaults` (orchestrator.py:184-201): the updated
      answer map and the defaults that were added. */
  function ApplyStandardDefaults(questions: seq<Question>, combined: AnswerMap): (r: (AnswerMap, AnswerMap))
    ensures r.1 == DefaultsFor(questions, combined)
    ensures r.1 == map[] ==> r.0 == combined
    ensures r.0.Keys == combined.Keys + r.1.Keys
    ensures forall k :: k in r.1 ==> !HasAnswer(combined, k) && r.0[k] == Text("Yes")
    ensures forall k :: k in combined && k !in r.1 ==> r.0[k] == combined[k]
  {
    var defaults := DefaultsFor(questions, combined);
    if defaults == map[] then (combined, map[]) else (combined + defaults, defaults)
  }

  /** A present answer is never overwritten by a default. */
  lemma DefaultsKeepPresentAnswers(questions: seq<Question>, combined: AnswerMap, k: string)
    requires HasAnswer(combined, k)
    ensures k in ApplyStandardDefaults(questions, combined).0
    ensures ApplyStandardDefaults(questions, combined).0[k] == combined[k]
  {
    assert k in combined;
  }

  lemma YesIsAnAnswer(m: AnswerMap, k: string)
    requires k in m && m[k] == Text("Yes")
    ensures HasAnswer(m, k)
  {
    var yes := "Yes";
    assert !IsSpace(yes[0]) && !IsSpace(yes[|yes| - 1]);
    TrimOfUnpadded(yes);
  }

  /** After defaulting, every standard-clause question has a present answer. */
  lemma DefaultsAnswerStandardQuestions(questions: seq<Question>, combined: AnswerMap, i: int)
    requires 0 <= i < |questions| && IsStandardClauseQuestion(questions[i])
    ensures HasAnswer(ApplyStandardDefaults(questions, combined).0, questions[i].key)
  {
    var k := questions[i].key;
    var updated := ApplyStandardDefaults(questions, combined).0;
    if !HasAnswer(combined, k) {
      assert NeedsDefault(questions[i], combined);
      assert k in DefaultKeys(questions, combined);
      YesIsAnAnswer(updated, k);
    } else {
      DefaultsKeepPresentAnswers(questions, combined, k);
    }
  }

  /** No defaults are added when every standard-clause question is answered. */
  lemma {:induction false} NoDefaultsWhenAnswered(questions: seq<Question>, m: AnswerMap)
    requires forall i :: 0 <= i < |questions| && IsStandardClauseQuestion(questions[i]) ==> HasAnswer(m, questions[i].key)
    ensures DefaultsFor(questions, m) == map[]
  {
    if questions != [] {
      assert !NeedsDefault(questions[0], m);
      forall i | 0 <= i < |questions[1..]| && IsStandardClauseQuestion(questions[1..][i])
        ensures HasAnswer(m, questions[1..][i].key)
      {
        assert questions[1..][i] == questions[i + 1];
      }
      NoDefaultsWhenAnswered(questions[1..], m);
    }
  }

  /** Applying the defaults to their own output adds nothing. */
  lemma StandardDefaultsIdempotent(questions: seq<Question>, combined: AnswerMap)
    ensures var once := ApplyStandardDefaults(questions, combined).0;
            ApplyStandardDefaults(questions, once) == (once, map[])
  {
    var once := ApplyStandardDefaults(questions, combined).0;
    forall i | 0 <= i < |questions| && IsStandardClauseQuestion(questions[i])
      ensures HasAnswer(once, questions[i].key)
    {
      DefaultsAnswerStandardQuestions(questions, combined, i);
    }
    NoDefaultsWhenAnswered(questions, once);
  }

  // -------------------------------------------------------- answer state

  function AnsweredLine(q: Question, value: string): string {
    "- " + q.labelText + ": " + value
  }

  function MissingLine(q: Question): string {
    "- " + q.labelText + " (" + q.key + ")"
  }

  /** `_compute_answer_state` (orchestrator.py:229-244): one line per
      answered question and one per required unanswered question. */
  function ComputeAnswerState(questions: seq<Question>, combined: AnswerMap): (r: (seq<string>, seq<string>))
    ensures |r.0| + |r.1| <= |questions|
    ensures |r.0| == CountAnswered(questions, combined)
    ensures |r.1| == CountMissing(questions, combined)
  {
    if questions == [] then ([], [])
    else
      var q := questions[0];
      var rest := ComputeAnswerState(questions[1..], combined);
      var normalized := NormalizeAnswerValue(Lookup(combined, q.key));
      if normalized.Some? then ([AnsweredLine(q, normalized.value)] + rest.0, rest.1)
      else if q.required then (rest.0, [MissingLine(q)] + rest.1)
      else rest
  }

  /** Having a present answer in `m`, as a filter condition. */
  function Answered(m: AnswerMap): Question -> bool {
    (q: Question) => HasAnswer(m, q.key)
  }

  /** Being required and without a present answer in `m`. */
  function Missing(m: AnswerMap): Question -> bool {
    (q: Question) => q.required && !HasAnswer(m, q.key)
  }

  /** The normalised answer to `q` in `m`, empty when there is none. */
  function AnswerText(m: AnswerMap, q: Question): string {
    var normalized := NormalizeAnswerValue(Lookup(m, q.key));
    if normalized.Some? then normalized.value else ""
  }

  function AnsweredLineIn(m: AnswerMap): Question -> string {
    (q: Question) => AnsweredLine(q, AnswerText(m, q))
  }

  /** One step of `ComputeAnswerState`: the first question contributes at
      most one line to each list. */
  lemma AnswerStateCons(questions: seq<Question>, combined: AnswerMap)
    requires questions != []
    ensures var q, rest := questions[0], ComputeAnswerState(questions[1..], combined);
            && ComputeAnswerState(questions, combined).0 ==
                 (if Answered(combined)(q) then [AnsweredLineIn(combined)(q)] else []) + rest.0
            && ComputeAnswerState(questions, combined).1 ==
                 (if Missing(combined)(q) then [MissingLine(q)] else []) + rest.1
  {
  }

  /** The answered lines are `- label: answer` for exactly the answered
      questions, in question order. */
  lemma {:induction false} AnsweredLines(questions: seq<Question>, combined: AnswerMap)
    ensures ComputeAnswerState(questions, combined).0 ==
            Map(Filter(questions, Answered(combined)), AnsweredLineIn(combined))
  {
    if questions != [] {
      var q, rest, p, f := questions[0], questions[1..], Answered(combined), AnsweredLineIn(combined);
      AnsweredLines(rest, combined);
      AnswerStateCons(questions, combined);
      assert Filter(questions, p) == (if p(q) then [q] else []) + Filter(rest, p);
      MapConcat(if p(q) then [q] else [], Filter(rest, p), f);
      assert Map(if p(q) then [q] else [], f) == if p(q) then [f(q)] else [];
    }
  }

  /** The missing lines are `- label (key)` for exactly the required
      questions without a present answer, in question order. */
  lemma {:induction false} MissingLines(questions: seq<Question>, combined: AnswerMap)
    ensures ComputeAnswerState(questions, combined).1 == Map(Filter(questions, Missing(combined)), MissingLine)
  {
    if questions != [] {
      var q, rest, p := questions[0], questions[1..], Missing(combined);
      MissingLines(rest, combined);
      AnswerStateCons(questions, combined);
      assert Filter(questions, p) == (if p(q) then [q] else []) + Filter(rest, p);
      MapConcat(if p(q) then [q] else [], Filter(rest, p), MissingLine);
      assert Map(if p(q) then [q] else [], MissingLine) == if p(q) then [MissingLine(q)] else [];
    }
  }

  function CountAnswered(questions: seq<Question>, combined: AnswerMap): nat {
    if questions == [] then 0
    else (if HasAnswer(combined, questions[0].key) then 1 else 0) + CountAnswered(questions[1..], combined)
  }

  function CountMissing(questions: seq<Question>, combined: AnswerMap): nat {
    if questions == [] then 0
    else (if questions[0].required && !HasAnswer(combined, questions[0].key) then 1 else 0)
         + CountMissing(questions[1..], combined)
  }

  /** Readiness: nothing is missing exactly when every required question has
      a present answer. */
  lemma {:induction false} NothingMissingIffRequiredAnswered(questions: seq<Question>, combined: AnswerMap)
    ensures ComputeAnswerState(questions, combined).1 == [] <==>
            forall i :: 0 <= i < |questions| && questions[i].required ==> HasAnswer(combined, questions[i].key)
  {
    if questions != [] {
      NothingMissingIffRequiredAnswered(questions[1..], combined);
      assert forall i :: 1 <= i < |questions| ==> questions[i] == questions[1..][i - 1];
    }
  }

  /** Every question is exactly one of answered, missing (required and
      unanswered) or skipped (optional and unanswered). */
  lemma {:induction false} AnswerStatePartitions(questions: seq<Question>, combined: AnswerMap)
    ensures CountAnswered(questions, combined) + CountMissing(questions, combined)
            + CountSkipped(questions, combined) == |questions|
  {
    if questions != [] {
      AnswerStatePartitions(questions[1..], combined);
    }
  }

  function CountSkipped(questions: seq<Question>, combined: AnswerMap): nat {
    if questions == [] then 0
    else (if !questions[0].required && !HasAnswer(combined, questions[0].key) then 1 else 0)
         + CountSkipped(questions[1..], combined)
  }

  // ------------------------------------------------------- ready summary

  predicate IsDashOrSpace(c: char) { c == '-' || c == ' ' }

  /** `line.lstrip("- ").strip()`. */
  function CleanLine(line: string): string {
    Trim(TrimStartBy(line, IsDashOrSpace))
  }

  /** The non-empty cleaned lines, in order. */
  function CleanedItems(lines: seq<string>): (r: seq<string>)
    ensures forall i :: 0 <= i < |r| ==> r[i] != []
  {
    if lines == [] then []
    else
      var c := CleanLine(lines[0]);
      (if c != [] then [c] else []) + CleanedItems(lines[1..])
  }

  /** The items are exactly the non-empty `CleanLine` of each line, in line
      order. */
  lemma {:induction false} CleanedItemsIsFilter(lines: seq<string>)
    ensures CleanedItems(lines) == Filter(Map(lines, CleanLine), NonEmptyText)
  {
    if lines != [] {
      CleanedItemsIsFilter(lines[1..]);
      var c := CleanLine(lines[0]);
      var cleaned := Map(lines, CleanLine);
      assert cleaned[0] == c && cleaned[1..] == Map(lines[1..], CleanLine);
      assert Filter(cleaned, NonEmptyText) == (if c != [] then [c] else []) + Filter(cleaned[1..], NonEmptyText);
    }
  }

  /** An item free of standard-clause language. */
  predicate IsPlainItem(item: string) { !ContainsStandardClauseLanguage(item) }

  /** The items that do not mention standard-clause language: every such
      item is kept, the others dropped, order unchanged. */
  function PlainItems(items: seq<string>): (r: seq<string>)
    ensures r == Filter(items, IsPlainItem)
    ensures forall i :: 0 <= i < |r| ==> !ContainsStandardClauseLanguage(r[i])
    ensures forall i :: 0 <= i < |r| ==> r[i] in items
  {
    if items == [] then []
    else (if !ContainsStandardClauseLanguage(items[0]) then [items[0]] else []) + PlainItems(items[1..])
  }

  /** The items the summary is drawn from: the plain ones, or all of them
      when none is plain. */
  function SummaryItems(lines: seq<string>): seq<string> {
    var all := CleanedItems(lines);
    var plain := PlainItems(all);
    if plain != [] then plain else all
  }

  function Min(a: int, b: int): int { if a <= b then a else b }

  predicate IsDot(c: char) { c == '.' }

  /** The closing sentence when items were left out of the summary. */
  function MoreDetails(remaining: nat): string {
    ". And " + NatToString(remaining) + " more detail(s) captured."
  }

  /** The summary sentence for a non-empty list of items: the first eight,
      joined by ". ", then the count of the ones left out. */
  function SummaryText(items: seq<string>): (r: string)
    requires items != []
    ensures StartsWith(r, "Summary: ")
    ensures |items| <= SummaryMaxItems ==> r == "Summary: " + Join(items, ". ") + "."
    ensures |items| > SummaryMaxItems ==> EndsWith(r, MoreDetails(|items| - SummaryMaxItems))
    ensures |items| > SummaryMaxItems ==>
              r == TrimEndBy("Summary: " + Join(items[..SummaryMaxItems], ". ") + ".", IsDot)
                   + MoreDetails(|items| - SummaryMaxItems)
  {
    var visible := items[..Min(SummaryMaxItems, |items|)];
    var summary := "Summary: " + Join(visible, ". ") + ".";
    var remaining := |items| - |visible|;
    assert summary[..9] == "Summary: ";
    assert |items| <= SummaryMaxItems ==> visible == items;
    if remaining > 0 then
      var head := TrimEndBy(summary, IsDot);
      TrimEndByKeepsPrefix(summary, "Summary: ", IsDot);
      AppendKeepsEnds(head, MoreDetails(remaining), "Summary: ");
      head + MoreDetails(remaining)
    else summary
  }

  /** Only the first eight items and the number of items shape the
      summary: items beyond the eighth are counted, never shown. */
  lemma SummaryTextShowsFirstEight(a: seq<string>, b: seq<string>)
    requires a != [] && |a| == |b|
    requires a[..Min(SummaryMaxItems, |a|)] == b[..Min(SummaryMaxItems, |b|)]
    ensures SummaryText(a) == SummaryText(b)
  {
  }

  /** `_build_ready_summary` (orchestrator.py:204-226). */
  function BuildReadySummary(lines: seq<string>): (r: Option<string>)
    ensures r.None? <==> CleanedItems(lines) == []
    ensures r.Some? ==> r.value == SummaryText(SummaryItems(lines))
  {
    var items := SummaryItems(lines);
    if items == [] then None else Some(SummaryText(items))
  }

  /** Plain items are preferred: whenever one exists, no summary item
      mentions standard-clause language; otherwise every item is used. */
  lemma SummaryPrefersPlainItems(lines: seq<string>)
    ensures PlainItems(CleanedItems(lines)) != [] ==>
              forall i :: 0 <= i < |SummaryItems(lines)| ==> !ContainsStandardClauseLanguage(SummaryItems(lines)[i])
    ensures PlainItems(CleanedItems(lines)) == [] ==> SummaryItems(lines) == CleanedItems(lines)
  {
  }

  // ------------------------------------------------------ reply shaping

  /** `_ensure_section_heading` (orchestrator.py:119-128). Its properties
      are stated in `EnsureSectionHeadingShape`, so that drafting proofs do
      not carry them. */
  function EnsureSectionHeading(sectionText: string, heading: string): string {
    var cleaned := Trim(sectionText);
    var cleanHeading := Trim(heading);
    if cleanHeading == [] then cleaned
    else if cleaned == [] then cleanHeading
    else if StartsWithIgnoringCase(cleaned, cleanHeading) then cleaned
    else cleanHeading + "\n\n" + cleaned
  }

  /** The result is trimmed; it opens with the trimmed heading, compared
      case-insensitively, whenever that heading is non-blank; a blank text
      gives the heading alone; and a text that already opens with the
      heading is only trimmed. */
  lemma EnsureSectionHeadingShape(sectionText: string, heading: string)
    ensures var r := EnsureSectionHeading(sectionText, heading);
            && Trim(r) == r
            && (Trim(heading) != [] ==> StartsWith(Lower(r), Lower(Trim(heading))))
            && (Trim(sectionText) == [] ==> r == Trim(heading))
            && (StartsWith(Lower(Trim(sectionText)), Lower(Trim(heading))) ==> r == Trim(sectionText))
            && (Trim(heading) != [] && Trim(sectionText) != []
                && !StartsWith(Lower(Trim(sectionText)), Lower(Trim(heading))) ==>
                  r == Trim(heading) + "\n\n" + Trim(sectionText))
  {
    EnsureSectionHeadingTrimmed(sectionText, heading);
    if Trim(heading) != [] {
      EnsureSectionHeadingOpens(sectionText, heading);
    }
    EnsureSectionHeadingKeeps(sectionText, heading);
  }

  /** The result is its own trim. */
  lemma EnsureSectionHeadingTrimmed(sectionText: string, heading: string)
    ensures Trim(EnsureSectionHeading(sectionText, heading)) == EnsureSectionHeading(sectionText, heading)
  {
    var cleaned := Trim(sectionText);
    var cleanHeading := Trim(heading);
    TrimIdempotent(sectionText);
    TrimIdempotent(heading);
    if cleanHeading != [] && cleaned != [] && !StartsWithIgnoringCase(cleaned, cleanHeading) {
      TrimOfUnpadded(cleanHeading + "\n\n" + cleaned);
    }
  }

  /** A non-blank heading opens the result, compared case-insensitively. */
  lemma EnsureSectionHeadingOpens(sectionText: string, heading: string)
    requires Trim(heading) != []
    ensures StartsWith(Lower(EnsureSectionHeading(sectionText, heading)), Lower(Trim(heading)))
  {
    var cleaned := Trim(sectionText);
    var cleanHeading := Trim(heading);
    StartsWithIgnoringCaseIff(cleaned, cleanHeading);
    if cleaned == [] {
      LowerKeepsPrefix(cleanHeading, cleanHeading);
    } else if !StartsWithIgnoringCase(cleaned, cleanHeading) {
      var r := cleanHeading + "\n\n" + cleaned;
      assert r[..|cleanHeading|] == cleanHeading;
      LowerKeepsPrefix(r, cleanHeading);
    }
  }

  /** A blank text gives the heading; a text that opens with the heading is
      only trimmed; any other text is kept, trimmed, after the heading and a
      blank line. */
  lemma EnsureSectionHeadingKeeps(sectionText: string, heading: string)
    ensures Trim(sectionText) == [] ==> EnsureSectionHeading(sectionText, heading) == Trim(heading)
    ensures StartsWith(Lower(Trim(sectionText)), Lower(Trim(heading))) ==>
              EnsureSectionHeading(sectionText, heading) == Trim(sectionText)
    ensures Trim(heading) != [] && Trim(sectionText) != []
            && !StartsWith(Lower(Trim(sectionText)), Lower(Trim(heading))) ==>
              EnsureSectionHeading(sectionText, heading) == Trim(heading) + "\n\n" + Trim(sectionText)
  {
    var cleaned := Trim(sectionText);
    var cleanHeading := Trim(heading);
    StartsWithIgnoringCaseIff(cleaned, cleanHeading);
    if cleaned == [] && cleanHeading != [] {
      assert !StartsWith(Lower(cleaned), Lower(cleanHeading));
    }
  }

  /** Ensuring the heading twice is the same as ensuring it once. */
  lemma EnsureSectionHeadingIdempotent(sectionText: string, heading: string)
    ensures var once := EnsureSectionHeading(sectionText, heading);
            EnsureSectionHeading(once, heading) == once
  {
    var once := EnsureSectionHeading(sectionText, heading);
    EnsureSectionHeadingShape(sectionText, heading);
    EnsureSectionHeadingShape(once, heading);
    var h := Trim(heading);
    if h != [] && once != [] {
      assert StartsWith(Lower(Trim(once)), Lower(h));
    }
  }

  lemma WelcomeUnpadded()
    ensures WelcomeMessage != [] && !IsSpace(WelcomeMessage[0]) && !IsSpace(WelcomeMessage[|WelcomeMessage| - 1])
  {

  }

  /** `_prepend_welcome_if_missing` (orchestrator.py:177-181). */
  function PrependWelcomeIfMissing(reply: string): (r: string)
    ensures StartsWith(Lower(Trim(r)), Lower(WelcomeMessage))
    ensures StartsWith(Lower(Trim(reply)), Lower(WelcomeMessage)) ==> r == reply
    ensures !StartsWith(Lower(Trim(reply)), Lower(WelcomeMessage)) ==> r == WelcomeMessage + "\n\n" + Trim(reply)
  {
    var stripped := Trim(reply);
    if StartsWith(Lower(stripped), Lower(WelcomeMessage)) then reply
    else
      var r := WelcomeMessage + "\n\n" + stripped;
      assert StartsWith(r, WelcomeMessage) by { assert r[..|WelcomeMessage|] == WelcomeMessage; }
      WelcomeUnpadded();
      TrimKeepsPrefix(r, WelcomeMessage);
      LowerKeepsPrefix(Trim(r), WelcomeMessage);
      r
  }

  /** A reply that already opens with the welcome is left alone, so adding
      the welcome twice is the same as adding it once. */
  lemma PrependWelcomeIdempotent(reply: string)
    ensures PrependWelcomeIfMissing(PrependWelcomeIfMissing(reply)) == PrependWelcomeIfMissing(reply)
  {
  }

  /** `_format_contract_label` (orchestrator.py:305-310). */
  function FormatContractLabel(contractTypeId: Option<string>, contractTypeName: Option<string>): (r: string)
    ensures r != []
    ensures contractTypeName.Some? && Trim(contractTypeName.value) != [] ==> r == Trim(contractTypeName.value)
    ensures ((contractTypeName.None? || Trim(contractTypeName.value) == [])
             && (contractTypeId.None? || Trim(contractTypeId.value) == [])) ==> r == "unknown contract type"
    ensures ((contractTypeName.None? || Trim(contractTypeName.value) == [])
             && contractTypeId.Some? && Trim(contractTypeId.value) != []) ==> r == Trim(contractTypeId.value)
  {
    if contractTypeName.Some? && Trim(contractTypeName.value) != [] then Trim(contractTypeName.value)
    else if contractTypeId.Some? && Trim(contractTypeId.value) != [] then Trim(contractTypeId.value)
    else "unknown contract type"
  }
}
