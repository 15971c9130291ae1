/** Seeding the contract catalogue (backend/src/seeds/seed-contract-types.ts):
    each seeded type is found by the slug of its name or created, and its
    question templates are added unless the type already has a question
    with the same key.  Generated keys are inputs. */
module ContractTypeSeed {
  import opened Strings
  import opened Store

  // ---------------------------------------------------------------------
  // Slugs (seed-contract-types.ts:184-186)
  // ---------------------------------------------------------------------

  predicate SlugChar(c: char) {
    'a' <= c <= 'z' || '0' <= c <= '9'
  }

  /** Slug characters and single dashes. */
  predicate Dashed(s: string) {
    && (forall i :: 0 <= i < |s| ==> SlugChar(s[i]) || s[i] == '-')
    && (forall i :: 0 <= i < |s| - 1 && s[i] == '-' ==> s[i + 1] != '-')
  }

  /** What `slugify` produces: `[a-z0-9-]` only, no dash at either end and
      no two dashes in a row. */
  predicate IsSlug(s: string) {
    Dashed(s) && (s != [] ==> s[0] != '-' && s[|s| - 1] != '-')
  }

  lemma DashedSlice(s: string, i: nat, j: nat)
    requires Dashed(s) && i <= j <= |s|
    ensures Dashed(s[i..j])
  {
    var t := s[i..j];
    forall k | 0 <= k < |t| - 1 && t[k] == '-'
      ensures t[k + 1] != '-'
    {
      assert t[k] == s[i + k] && t[k + 1] == s[i + k + 1];
    }
  }

  /** The rest of `s` after its leading run of non-slug characters. */
  function SkipRun(s: string): (r: string)
    ensures |r| <= |s| && r == s[|s| - |r|..]
    ensures forall i :: 0 <= i < |s| - |r| ==> !SlugChar(s[i])
    ensures r != [] ==> SlugChar(r[0])
  {
    if s == [] || SlugChar(s[0]) then s else SkipRun(s[1..])
  }

  /** `replace(/[^a-z0-9]+/g, "-")`: each maximal run of other characters
      becomes one dash. */
  function Collapse(s: string): (r: string)
    ensures Dashed(r)
    ensures r == [] <==> s == []
    ensures s != [] && SlugChar(s[0]) ==> r[0] == s[0]
    ensures s != [] && !SlugChar(s[0]) ==> r[0] == '-'
    decreases |s|
  {
    if s == [] then []
    else if SlugChar(s[0]) then [s[0]] + Collapse(s[1..])
    else "-" + Collapse(SkipRun(s[1..]))
  }

  /** `replace(/^-+/, "")`. */
  function DropLeadingDashes(s: string): (r: string)
    ensures |r| <= |s| && r == s[|s| - |r|..]
    ensures r != [] ==> r[0] != '-'
    ensures s != [] && s[0] != '-' ==> r == s
  {
    if s != [] && s[0] == '-' then DropLeadingDashes(s[1..]) else s
  }

  /** `replace(/-+$/, "")`. */
  function DropTrailingDashes(s: string): (r: string)
    ensures |r| <= |s| && r == s[..|r|]
    ensures r != [] ==> r[|r| - 1] != '-'
    ensures s != [] && s[|s| - 1] != '-' ==> r == s
  {
    if s != [] && s[|s| - 1] == '-' then DropTrailingDashes(s[..|s| - 1]) else s
  }

  /** Stripping the end dashes of a dashed string leaves a slug. */
  lemma StripDashesSlug(collapsed: string)
    requires Dashed(collapsed)
    ensures IsSlug(DropTrailingDashes(DropLeadingDashes(collapsed)))
  {
    var lead := DropLeadingDashes(collapsed);
    DashedSlice(collapsed, |collapsed| - |lead|, |collapsed|);
    var r := DropTrailingDashes(lead);
    DashedSlice(lead, 0, |r|);
    assert r != [] ==> r[0] == lead[0];
  }

  /** `slugify`: lower-case, collapse, strip dashes at the ends. */
  function Slugify(name: string): (r: string)
    ensures IsSlug(r)
  {
    var collapsed := Collapse(Lower(name));
    StripDashesSlug(collapsed);
    DropTrailingDashes(DropLeadingDashes(collapsed))
  }

  /** Single dashes between slug characters survive collapsing. */
  lemma {:induction false} CollapseDashed(s: string)
    requires Dashed(s)
    ensures Collapse(s) == s
    decreases |s|
  {
    if s != [] {
      DashedSlice(s, 1, |s|);
      CollapseDashed(s[1..]);
      if !SlugChar(s[0]) {
        assert SkipRun(s[1..]) == s[1..];
      }
    }
  }

  /** A slug is its own slug. */
  lemma SlugifyFixesSlugs(s: string)
    requires IsSlug(s)
    ensures Slugify(s) == s
  {
    LowerOfLower(s);
    CollapseDashed(s);
  }

  /** `slugify` is idempotent. */
  lemma SlugifyIdempotent(name: string)
    ensures Slugify(Slugify(name)) == Slugify(name)
  {
    SlugifyFixesSlugs(Slugify(name));
  }

  /** A maximal run of `[a-z0-9]` characters, as the slug keeps it. */
  predicate IsWord(w: string) {
    w != [] && forall j :: 0 <= j < |w| ==> SlugChar(w[j])
  }

  /** The leading run of slug characters of `s`. */
  function TakeRun(s: string): (r: string)
    ensures |r| <= |s| && r == s[..|r|]
    ensures forall j :: 0 <= j < |r| ==> SlugChar(r[j])
    ensures |r| < |s| ==> !SlugChar(s[|r|])
  {
    if s == [] || !SlugChar(s[0]) then [] else [s[0]] + TakeRun(s[1..])
  }

  /** The maximal runs of slug characters of `s`, in order. */
  function Words(s: string): (r: seq<string>)
    ensures forall i :: 0 <= i < |r| ==> IsWord(r[i])
    decreases |s|
  {
    if s == [] then []
    else if !SlugChar(s[0]) then Words(s[1..])
    else
      var w := TakeRun(s);
      [w] + Words(s[|w|..])
  }

  /** A run of slug characters passes through collapsing unchanged. */
  lemma {:induction false} CollapseRun(s: string)
    requires s != [] && SlugChar(s[0])
    ensures Collapse(s) == TakeRun(s) + Collapse(s[|TakeRun(s)|..])
    decreases |s|
  {
    var t := s[1..];
    assert Collapse(s) == [s[0]] + Collapse(t);
    assert TakeRun(s) == [s[0]] + TakeRun(t);
    if t != [] && SlugChar(t[0]) {
      CollapseRun(t);
      var r := TakeRun(t);
      assert s[|TakeRun(s)|..] == t[|r|..];
      AppendAssoc([s[0]], r, Collapse(t[|r|..]));
    } else {
      assert TakeRun(t) == [];
      assert s[|TakeRun(s)|..] == t;
    }
  }

  /** Skipping other characters does not change the runs. */
  lemma {:induction false} WordsSkip(t: string)
    ensures Words(t) == Words(SkipRun(t))
    decreases |t|
  {
    if t != [] && !SlugChar(t[0]) {
      WordsSkip(t[1..]);
    }
  }

  /** Runs joined by dashes open and close with a slug character. */
  lemma {:induction false} JoinWordsEnds(ws: seq<string>)
    requires ws != [] && forall i :: 0 <= i < |ws| ==> IsWord(ws[i])
    ensures var j := Join(ws, "-");
            j != [] && SlugChar(j[0]) && SlugChar(j[|j| - 1])
  {
    if |ws| > 1 {
      JoinWordsEnds(ws[1..]);
      var j := Join(ws, "-");
      assert j == ws[0] + "-" + Join(ws[1..], "-");
      assert j[0] == ws[0][0];
    }
  }

  /** A dash ends a collapsed string exactly when the input ends in a
      character outside `[a-z0-9]`. */
  function Trail(u: string): string {
    if u != [] && !SlugChar(u[|u| - 1]) then "-" else ""
  }

  /** The trail of a string is that of any non-empty suffix. */
  lemma TrailSuffix(u: string, k: nat)
    requires k < |u|
    ensures Trail(u) == Trail(u[k..])
  {
    assert u[k..][|u[k..]| - 1] == u[|u| - 1];
  }

  /** A gap of other characters collapses to one dash and holds no run. */
  lemma {:induction false} CollapseGap(t: string)
    requires t != [] && !SlugChar(t[0])
    ensures Collapse(t) == "-" + Collapse(SkipRun(t[1..]))
    ensures Words(t) == Words(SkipRun(t[1..]))
    ensures SkipRun(t[1..]) == [] ==> Trail(t) == "-"
  {
    WordsSkip(t[1..]);
    var v := SkipRun(t[1..]);
    if v == [] && |t| > 1 {
      assert !SlugChar(t[1..][|t| - 2]);
    }
  }

  /** Joining a run in front of a non-empty list of runs. */
  lemma JoinCons(w: string, ws: seq<string>)
    requires ws != []
    ensures Join([w] + ws, "-") == w + "-" + Join(ws, "-")
  {
    assert ([w] + ws)[1..] == ws;
  }

  /** A string that opens with a run and holds nothing after it. */
  lemma CollapseOneRun(u: string)
    requires u != [] && SlugChar(u[0]) && u[|TakeRun(u)|..] == []
    ensures Collapse(u) == Join(Words(u), "-") + Trail(u)
  {
    var w := TakeRun(u);
    CollapseRun(u);
    assert u == w;
    assert Words(u) == [w] + Words([]);
  }

  /** A run, a gap, then a string `v` that opens with a run: collapsing
      keeps the run and puts one dash before what `v` collapses to. */
  lemma CollapseRunGapRunText(u: string, v: string)
    requires u != [] && SlugChar(u[0])
    requires var t := u[|TakeRun(u)|..]; t != [] && v == SkipRun(t[1..])
    ensures Collapse(u) == TakeRun(u) + ("-" + Collapse(v))
  {
    CollapseRun(u);
    CollapseGap(u[|TakeRun(u)|..]);
  }

  /** A run followed by other characters up to the end holds that one run. */
  lemma RunThenGapWords(u: string)
    requires u != [] && SlugChar(u[0])
    requires var t := u[|TakeRun(u)|..]; t != [] && SkipRun(t[1..]) == []
    ensures Join(Words(u), "-") == TakeRun(u)
  {
    var t := u[|TakeRun(u)|..];
    CollapseGap(t);
    assert Words(t) == [];
    assert Words(u) == [TakeRun(u)] + Words(t);
  }

  /** A run followed by other characters up to the end keeps one dash. */
  lemma RunThenGapTrail(u: string)
    requires u != [] && SlugChar(u[0])
    requires var t := u[|TakeRun(u)|..]; t != [] && SkipRun(t[1..]) == []
    ensures Trail(u) == "-"
  {
    CollapseGap(u[|TakeRun(u)|..]);
    TrailSuffix(u, |TakeRun(u)|);
  }

  /** A run followed by other characters up to the end. */
  lemma CollapseRunThenGap(u: string)
    requires u != [] && SlugChar(u[0])
    requires var t := u[|TakeRun(u)|..]; t != [] && SkipRun(t[1..]) == []
    ensures Collapse(u) == Join(Words(u), "-") + Trail(u)
  {
    var w := TakeRun(u);
    CollapseRunGapRunText(u, []);
    var e: string := [];
    assert Collapse(e) == e;
    assert "-" + e == "-";
    assert Collapse(u) == w + "-";
    RunThenGapWords(u);
    RunThenGapTrail(u);
  }

  /** The same string's runs are its first run and the runs of `v`. */
  lemma CollapseRunGapRunWords(u: string, v: string)
    requires u != [] && SlugChar(u[0])
    requires var t := u[|TakeRun(u)|..]; t != [] && v == SkipRun(t[1..]) && v != []
    ensures Join(Words(u), "-") == TakeRun(u) + "-" + Join(Words(v), "-")
  {
    var w := TakeRun(u);
    var t := u[|w|..];
    CollapseGap(t);
    assert Words(u) == [w] + Words(t);
    JoinCons(w, Words(v));
  }

  /** The same string ends as `v` does. */
  lemma CollapseRunGapRunTrail(u: string, v: string)
    requires u != [] && SlugChar(u[0])
    requires var t := u[|TakeRun(u)|..]; t != [] && v == SkipRun(t[1..]) && v != []
    ensures Trail(u) == Trail(v)
  {
    var w := TakeRun(u);
    var t := u[|w|..];
    var t1 := t[1..];
    TrailSuffix(t1, |t1| - |v|);
    TrailSuffix(t, 1);
    TrailSuffix(u, |w|);
  }

  /** A run, a gap, then a string `v` that opens with a run and collapses
      as claimed. */
  lemma CollapseRunGapRun(u: string, v: string)
    requires u != [] && SlugChar(u[0])
    requires var t := u[|TakeRun(u)|..]; t != [] && v == SkipRun(t[1..]) && v != []
    requires Collapse(v) == Join(Words(v), "-") + Trail(v)
    ensures Collapse(u) == Join(Words(u), "-") + Trail(u)
  {
    var w := TakeRun(u);
    var jv := Join(Words(v), "-");
    var tr := Trail(v);
    CollapseRunGapRunText(u, v);
    CollapseRunGapRunWords(u, v);
    CollapseRunGapRunTrail(u, v);
    AppendAssoc("-", jv, tr);
    AppendAssoc(w, "-" + jv, tr);
    AppendAssoc(w, "-", jv);
  }

  /** Collapsing a string that opens with a run gives its runs joined by
      single dashes, plus one dash when it ends in other characters. */
  lemma {:induction false} CollapseFromWord(u: string)
    requires u == [] || SlugChar(u[0])
    ensures Collapse(u) == Join(Words(u), "-") + Trail(u)
    decreases |u|
  {
    if u != [] {
      var t := u[|TakeRun(u)|..];
      if t == [] {
        CollapseOneRun(u);
      } else {
        var v := SkipRun(t[1..]);
        if v == [] {
          CollapseRunThenGap(u);
        } else {
          CollapseFromWord(v);
          CollapseRunGapRun(u, v);
        }
      }
    }
  }

  /** One leading dash before a string that opens otherwise is dropped. */
  lemma DropLeadOne(x: string)
    requires x != [] && x[0] != '-'
    ensures DropLeadingDashes("-" + x) == x
  {
    assert ("-" + x)[1..] == x;
  }

  /** One trailing dash after a string that ends otherwise is dropped. */
  lemma DropTrailOne(x: string)
    requires x != [] && x[|x| - 1] != '-'
    ensures DropTrailingDashes(x + "-") == x
  {
    assert (x + "-")[..|x|] == x;
  }

  /** Dropping the end dashes around a text that opens and closes with a
      slug character leaves that text. */
  lemma DropEndDashes(j: string, lead: string, trail: string)
    requires lead == "" || lead == "-"
    requires trail == "" || trail == "-"
    requires j == [] ==> trail == ""
    requires j != [] ==> SlugChar(j[0]) && SlugChar(j[|j| - 1])
    ensures DropTrailingDashes(DropLeadingDashes(lead + j + trail)) == j
  {
    if j == [] {
      assert lead + j + trail == lead;
      if lead == "-" {
        DropLeadOne(j + "a");
        assert DropLeadingDashes(lead) == [];
      }
    } else {
      var x := j + trail;
      assert x != [] && x[0] == j[0];
      if lead == "-" {
        assert lead + j + trail == "-" + x;
        DropLeadOne(x);
      } else {
        assert lead + j + trail == x;
      }
      if trail == "-" {
        DropTrailOne(j);
      } else {
        assert x == j;
      }
    }
  }

  /** The joined runs of a string that opens with a run are empty only for
      the empty string, and otherwise open and close with slug characters. */
  lemma EndsOfJoin(u: string)
    requires u == [] || SlugChar(u[0])
    ensures var j := Join(Words(u), "-");
            && (j == [] ==> Trail(u) == "")
            && (j != [] ==> SlugChar(j[0]) && SlugChar(j[|j| - 1]))
  {
    if u != [] {
      assert Words(u) != [];
      JoinWordsEnds(Words(u));
    }
  }

  /** The slug of a lower-cased name that opens with other characters. */
  lemma SlugifyFromGap(s: string)
    requires s != [] && !SlugChar(s[0])
    ensures DropTrailingDashes(DropLeadingDashes(Collapse(s))) == Join(Words(s), "-")
  {
    var u := SkipRun(s[1..]);
    var j := Join(Words(u), "-");
    var tr := Trail(u);
    assert Collapse(s) == "-" + j + tr by {
      CollapseFromWord(u);
      assert Collapse(s) == "-" + Collapse(u);
      AppendAssoc("-", j, tr);
    }
    assert Words(s) == Words(u) by {
      WordsSkip(s[1..]);
      assert Words(s) == Words(s[1..]);
    }
    EndsOfJoin(u);
    DropEndDashes(j, "-", tr);
  }

  /** The slug of a lower-cased name that is empty or opens with a run. */
  lemma SlugifyFromWord(s: string)
    requires s == [] || SlugChar(s[0])
    ensures DropTrailingDashes(DropLeadingDashes(Collapse(s))) == Join(Words(s), "-")
  {
    var j := Join(Words(s), "-");
    var tr := Trail(s);
    CollapseFromWord(s);
    assert "" + j == j;
    EndsOfJoin(s);
    DropEndDashes(j, "", tr);
  }

  /** The slug is exactly the runs of `[a-z0-9]` of the lower-cased name,
      in order, joined by single dashes: every letter and digit is kept, and
      a dash stands exactly where other characters separate two runs. */
  lemma SlugifyJoinsWords(name: string)
    ensures Slugify(name) == Join(Words(Lower(name)), "-")
  {
    var s := Lower(name);
    if s != [] && !SlugChar(s[0]) {
      SlugifyFromGap(s);
    } else {
      SlugifyFromWord(s);
    }
  }

  // ---------------------------------------------------------------------
  // Find-or-create (seed-contract-types.ts:188-241)
  // ---------------------------------------------------------------------

  datatype InputType = Text | TextArea | Select | Number | Date | MultiSelect

  /** A row of `contract_question_templates`; `options` is opaque JSON. */
  datatype QuestionTemplate = QuestionTemplate(
    contractTypeId: string,
    order: int,
    questionKey: string,
    labelText: string,
    description: Option<string>,
    inputType: InputType,
    options: Option<string>,
    isRequired: bool,
    complexity: Complexity)

  /** `QuestionSeed`; an omitted field is `None`. */
  datatype QuestionSeed = QuestionSeed(
    questionKey: string,
    labelText: string,
    description: Option<string>,
    inputType: Option<InputType>,
    options: Option<string>,
    isRequired: Option<bool>,
    order: int,
    complexity: Option<Complexity>)

  /** `ContractTypeSeed`. */
  datatype TypeSeed = TypeSeed(
    name: string,
    category: string,
    complexity: Complexity,
    jurisdictionDefault: Option<string>,
    primaryFormKeys: Option<seq<string>>,
    questions: seq<QuestionSeed>)

  /** The question row created for seed `q`: text input, required and of
      standard complexity unless the seed says otherwise. */
  function NewQuestion(typeId: string, q: QuestionSeed): (r: QuestionTemplate)
    ensures r.contractTypeId == typeId && r.questionKey == q.questionKey && r.labelText == q.labelText
    ensures r.order == q.order && r.description == q.description && r.options == q.options
    ensures r.inputType == if q.inputType.Some? then q.inputType.value else Text
    ensures r.isRequired == if q.isRequired.Some? then q.isRequired.value else true
    ensures r.complexity == if q.complexity.Some? then q.complexity.value else Standard
  {
    QuestionTemplate(typeId, q.order, q.questionKey, q.labelText, q.description,
                     match q.inputType case Some(t) => t case None => Text,
                     q.options,
                     match q.isRequired case Some(b) => b case None => true,
                     match q.complexity case Some(c) => c case None => Standard)
  }

  predicate HasQuestion(rows: seq<QuestionTemplate>, typeId: string, key: string) {
    exists i :: 0 <= i < |rows| && rows[i].contractTypeId == typeId && rows[i].questionKey == key
  }

  /** One question per type and key. */
  predicate QuestionsUnique(rows: seq<QuestionTemplate>) {
    forall i, j :: 0 <= i < j < |rows| ==>
      rows[i].contractTypeId != rows[j].contractTypeId || rows[i].questionKey != rows[j].questionKey
  }

  /** The first question of type `typeId` with key `key`. */
  function QuestionIndex(rows: seq<QuestionTemplate>, typeId: string, key: string): (r: Option<nat>)
    ensures r.Some? ==> r.value < |rows| && rows[r.value].contractTypeId == typeId && rows[r.value].questionKey == key
    ensures r.None? <==> !HasQuestion(rows, typeId, key)
  {
    Find(rows, (x: QuestionTemplate) => x.contractTypeId == typeId && x.questionKey == key)
  }

  /** The inner loop's step: a question whose key the type already has is
      skipped, any other is added. */
  function AddQuestion(rows: seq<QuestionTemplate>, typeId: string, q: QuestionSeed): seq<QuestionTemplate> {
    var existing := QuestionIndex(rows, typeId, q.questionKey);
    if existing.Some? then rows else rows + [NewQuestion(typeId, q)]
  }

  /** The inner loop over a type's question seeds. */
  function AddQuestions(rows: seq<QuestionTemplate>, typeId: string, qs: seq<QuestionSeed>): seq<QuestionTemplate>
    decreases |qs|
  {
    if qs == [] then rows
    else AddQuestion(AddQuestions(rows, typeId, qs[..|qs| - 1]), typeId, qs[|qs| - 1])
  }

  /** Existing questions are never overwritten or removed, no (type, key)
      pair is duplicated, and afterwards every seeded key is present. */
  lemma {:induction false} AddQuestionsSound(rows: seq<QuestionTemplate>, typeId: string, qs: seq<QuestionSeed>)
    ensures var after := AddQuestions(rows, typeId, qs);
      && rows <= after
      && (QuestionsUnique(rows) ==> QuestionsUnique(after))
      && (forall q :: q in qs ==> HasQuestion(after, typeId, q.questionKey))
    decreases |qs|
  {
    if qs != [] {
      var init := qs[..|qs| - 1];
      var q := qs[|qs| - 1];
      var before := AddQuestions(rows, typeId, init);
      AddQuestionsSound(rows, typeId, init);
      AddQuestionSound(before, typeId, q);
      var after := AddQuestion(before, typeId, q);
      forall p | p in qs
        ensures HasQuestion(after, typeId, p.questionKey)
      {
        if p != q {
          assert p in init;
          KeepsQuestion(before, after, typeId, p.questionKey);
        }
      }
    }
  }

  /** One step of the inner loop keeps the rows as a prefix, keeps them
      unique, and leaves the seeded key present. */
  lemma AddQuestionSound(rows: seq<QuestionTemplate>, typeId: string, q: QuestionSeed)
    ensures var after := AddQuestion(rows, typeId, q);
      && rows <= after
      && (QuestionsUnique(rows) ==> QuestionsUnique(after))
      && HasQuestion(after, typeId, q.questionKey)
  {
    var after := AddQuestion(rows, typeId, q);
    if QuestionIndex(rows, typeId, q.questionKey).None? {
      assert after[|rows|].contractTypeId == typeId && after[|rows|].questionKey == q.questionKey;
    }
  }

  lemma KeepsQuestion(before: seq<QuestionTemplate>, after: seq<QuestionTemplate>, typeId: string, key: string)
    requires before <= after && HasQuestion(before, typeId, key)
    ensures HasQuestion(after, typeId, key)
  {
    var i :| 0 <= i < |before| && before[i].contractTypeId == typeId && before[i].questionKey == key;
    assert after[i] == before[i];
  }

  /** The created row for a seed whose slug is new: active, jurisdiction
      "AU" unless the seed names one, form keys as seeded. */
  function NewType(id: string, t: TypeSeed): (r: ContractType)
    ensures r.id == id && r.slug == Slugify(t.name) && r.name == t.name
    ensures r.category == t.category && r.complexity == t.complexity && r.isActive
    ensures r.jurisdictionDefault == if t.jurisdictionDefault.Some? then t.jurisdictionDefault.value else "AU"
    ensures r.primaryFormKeys == t.primaryFormKeys
  {
    ContractType(id, Slugify(t.name), t.name, t.category, t.complexity,
                 match t.jurisdictionDefault case Some(j) => j case None => "AU",
                 true, t.primaryFormKeys)
  }

  /** An existing type only takes the seed's form keys, keeping its own
      when the seed has none. */
  function Refreshed(ct: ContractType, t: TypeSeed): (r: ContractType)
    ensures r.primaryFormKeys == if t.primaryFormKeys.Some? then t.primaryFormKeys else ct.primaryFormKeys
    ensures r.(primaryFormKeys := ct.primaryFormKeys) == ct
  {
    ct.(primaryFormKeys := Coalesce(t.primaryFormKeys, ct.primaryFormKeys))
  }

  datatype Catalog = Catalog(types: seq<ContractType>, questions: seq<QuestionTemplate>)

  /** `findOne({ where: { slug } })`: the first row with that slug. */
  function SlugIndex(types: seq<ContractType>, slug: string): (r: Option<nat>)
    ensures r.Some? ==> r.value < |types| && types[r.value].slug == slug
    ensures r.Some? ==> forall i :: 0 <= i < r.value ==> types[i].slug != slug
    ensures r.None? <==> forall i :: 0 <= i < |types| ==> types[i].slug != slug
  {
    Find(types, (x: ContractType) => x.slug == slug)
  }

  /** The type row an iteration of the outer loop leaves behind: the
      existing row with the seed's slug, refreshed, or a new one. */
  function SeededRow(types: seq<ContractType>, t: TypeSeed, freshId: string): (r: ContractType)
    ensures r.slug == Slugify(t.name)
  {
    var slug := Slugify(t.name);
    var k := SlugIndex(types, slug);
    if k.Some? then Refreshed(types[k.value], t) else NewType(freshId, t)
  }

  /** One iteration of the outer loop; `freshId` keys a created type. */
  function SeedType(c: Catalog, t: TypeSeed, freshId: string): Catalog {
    var slug := Slugify(t.name);
    var k := SlugIndex(c.types, slug);
    var ct := SeededRow(c.types, t, freshId);
    Catalog(if k.Some? then c.types[k.value := ct] else c.types + [ct],
            AddQuestions(c.questions, ct.id, t.questions))
  }

  predicate SlugsUnique(types: seq<ContractType>) {
    forall i, j :: 0 <= i < j < |types| ==> types[i].slug != types[j].slug
  }

  /** Seeding a type creates it only when its slug is new, so slugs stay
      unique; the seeded row is in the table afterwards. */
  lemma SeedTypeSlugs(c: Catalog, t: TypeSeed, freshId: string)
    ensures var after := SeedType(c, t, freshId);
      && (SlugsUnique(c.types) ==> SlugsUnique(after.types))
      && SeededRow(c.types, t, freshId) in after.types
  {
    var slug := Slugify(t.name);
    var k := SlugIndex(c.types, slug);
    var ct := SeededRow(c.types, t, freshId);
    if k.Some? {
      ReplaceSameSlug(c.types, k.value, ct);
    } else {
      AppendNewSlug(c.types, ct);
    }
  }

  /** Replacing a row by one with the same slug keeps slugs unique. */
  lemma ReplaceSameSlug(types: seq<ContractType>, k: nat, ct: ContractType)
    requires k < |types| && ct.slug == types[k].slug
    ensures SlugsUnique(types) ==> SlugsUnique(types[k := ct])
    ensures ct in types[k := ct]
  {
    var after := types[k := ct];
    assert after[k] == ct;
    assert forall i :: 0 <= i < |after| ==> after[i].slug == types[i].slug;
  }

  /** Appending a row with a slug not yet present keeps slugs unique. */
  lemma AppendNewSlug(types: seq<ContractType>, ct: ContractType)
    requires forall i :: 0 <= i < |types| ==> types[i].slug != ct.slug
    ensures SlugsUnique(types) ==> SlugsUnique(types + [ct])
    ensures ct in types + [ct]
  {
    var after := types + [ct];
    assert after[|types|] == ct;
  }

  /** Seeding a type leaves the existing questions in place, duplicates no
      (type, key) pair, and gives the seeded row every seeded key. */
  lemma SeedTypeQuestions(c: Catalog, t: TypeSeed, freshId: string)
    ensures var after := SeedType(c, t, freshId);
      && c.questions <= after.questions
      && (QuestionsUnique(c.questions) ==> QuestionsUnique(after.questions))
      && forall q :: q in t.questions ==>
           HasQuestion(after.questions, SeededRow(c.types, t, freshId).id, q.questionKey)
  {
    AddQuestionsSound(c.questions, SeededRow(c.types, t, freshId).id, t.questions);
  }

  /** The whole outer loop over the seeds, with `ids[i]` the key a created
      type `seeds[i]` would get. */
  function SeedAll(c: Catalog, seeds: seq<TypeSeed>, ids: seq<string>): Catalog
    requires |ids| == |seeds|
    decreases |seeds|
  {
    if seeds == [] then c
    else SeedType(SeedAll(c, seeds[..|seeds| - 1], ids[..|ids| - 1]), seeds[|seeds| - 1], ids[|ids| - 1])
  }

  /** The inner loop, one question seed at a time. */
  method SeedQuestions(questions: Table<QuestionTemplate>, typeId: string, qs: seq<QuestionSeed>)
    modifies questions
    ensures questions.rows == AddQuestions(old(questions.rows), typeId, qs)
  {
    for i := 0 to |qs|
      invariant questions.rows == AddQuestions(old(questions.rows), typeId, qs[..i])
    {
      assert qs[..i + 1][..i] == qs[..i];
      var q := qs[i];
      var existing := QuestionIndex(questions.rows, typeId, q.questionKey);
      if existing.None? {
        questions.rows := questions.rows + [NewQuestion(typeId, q)];
      }
    }
    assert qs[..|qs|] == qs;
  }

  /** One iteration of `run`'s outer loop. */
  method SeedOne(types: Table<ContractType>, questions: Table<QuestionTemplate>, t: TypeSeed, freshId: string)
    modifies types, questions
    ensures Catalog(types.rows, questions.rows) == SeedType(old(Catalog(types.rows, questions.rows)), t, freshId)
  {
    var slug := Slugify(t.name);
    var k := SlugIndex(types.rows, slug);
    var ct;
    if k.None? {
      ct := NewType(freshId, t);
      types.rows := types.rows + [ct];
    } else {
      ct := Refreshed(types.rows[k.value], t);
      types.rows := types.rows[k.value := ct];
    }
    if |t.questions| > 0 {
      SeedQuestions(questions, ct.id, t.questions);
    }
  }

  /** `run`: every seed is found-or-created and its questions added, in
      order. */
  method Run(types: Table<ContractType>, questions: Table<QuestionTemplate>, seeds: seq<TypeSeed>,
             ids: seq<string>)
    requires |ids| == |seeds|
    modifies types, questions
    ensures Catalog(types.rows, questions.rows) == SeedAll(old(Catalog(types.rows, questions.rows)), seeds, ids)
  {
    ghost var start := Catalog(types.rows, questions.rows);
    for i := 0 to |seeds|
      invariant Catalog(types.rows, questions.rows) == SeedAll(start, seeds[..i], ids[..i])
    {
      SeedAllSnoc(start, seeds, ids, i);
      SeedOne(types, questions, seeds[i], ids[i]);
    }
    assert seeds[..|seeds|] == seeds && ids[..|ids|] == ids;
  }

  lemma SeedAllSnoc(c: Catalog, seeds: seq<TypeSeed>, ids: seq<string>, i: nat)
    requires |ids| == |seeds| && i < |seeds|
    ensures SeedAll(c, seeds[..i + 1], ids[..i + 1]) == SeedType(SeedAll(c, seeds[..i], ids[..i]), seeds[i], ids[i])
  {
    assert seeds[..i + 1][..i] == seeds[..i] && ids[..i + 1][..i] == ids[..i];
  }
}
