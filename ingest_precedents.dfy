/** The TypeScript ingest script (backend/scripts/ingest-precedents.ts): the
    same outline extraction as the Python loader, with JavaScript's regular
    expression rules for the numbered heading, plus XML entity decoding and
    the token matching that links a precedent to a contract type. The
    script's `normalizeText` maps the same six characters as the loader's
    `_normalize_text` and is `PrecedentLoader.NormalizeText`. Reading the
    directory, unzipping the documents and saving rows are not part of
    this model. */
module IngestPrecedents {
  import opened Strings
  import opened Outlines
  import PrecedentLoader

  // ---------------------------------------------------------------------
  // XML entities (ingest-precedents.ts:19-32)
  // ---------------------------------------------------------------------

  /** The entity at the front of `s`, as the length of its text and the
      character it stands for: one of the five predefined entities of
      section 4.6 of XML 1.0. */
  function EntityAt(s: string): (r: Option<(nat, char)>)
    ensures r.Some? ==> 4 <= r.value.0 <= 6 && r.value.0 <= |s| && s[0] == '&'
  {
    if StartsWith(s, "&amp;") then Some((5, '&'))
    else if StartsWith(s, "&lt;") then Some((4, '<'))
    else if StartsWith(s, "&gt;") then Some((4, '>'))
    else if StartsWith(s, "&quot;") then Some((6, '"'))
    else if StartsWith(s, "&apos;") then Some((6, '\''))
    else None
  }

  /** `decodeXmlEntities`: one left-to-right pass that replaces each of the
      five entities by its character; a decoded `&` is never read again. */
  function DecodeXmlEntities(s: string): (r: string)
    ensures |r| <= |s|
    decreases |s|
  {
    if s == [] then []
    else match EntityAt(s)
      case Some((n, c)) => [c] + DecodeXmlEntities(s[n..])
      case None => [s[0]] + DecodeXmlEntities(s[1..])
  }

  /** Text without `&` decodes to itself. */
  lemma {:induction false} DecodeWithoutAmpersand(s: string)
    requires forall i :: 0 <= i < |s| ==> s[i] != '&'
    ensures DecodeXmlEntities(s) == s
  {
    if s != [] {
      DecodeWithoutAmpersand(s[1..]);
    }
  }

  /** Decoding splits at a character that starts no entity. */
  lemma DecodePlain(c: char, s: string)
    requires c != '&'
    ensures DecodeXmlEntities([c] + s) == [c] + DecodeXmlEntities(s)
  {
    assert ([c] + s)[1..] == s;
  }

  // ---------------------------------------------------------------------
  // Heading detection (ingest-precedents.ts:44-71)
  // ---------------------------------------------------------------------

  /** The characters JavaScript's `.` refuses to match. */
  predicate IsLineTerminator(c: char) {
    c == '\n' || c == '\r' || c == '\U{2028}' || c == '\U{2029}'
  }

  /** JavaScript's `.+$` without the multiline flag: the whole rest, which
      must hold no line terminator, since `$` matches only at the very end. */
  function JsTail(rest: string): (r: Option<string>)
    ensures r.Some? ==> r.value == rest
    ensures r.Some? <==> forall i :: 0 <= i < |rest| ==> !IsLineTerminator(rest[i])
  {
    if forall i :: 0 <= i < |rest| ==> !IsLineTerminator(rest[i]) then Some(rest) else None
  }

  /** `isTopLevelNumberedHeading`; letters are ASCII in the script, as they
      are throughout this model. */
  predicate IsTopLevelNumberedHeading(text: string) {
    var rest := PrecedentLoader.AfterNumber(text);
    rest.Some? && var tail := JsTail(rest.value);
    tail.Some? && PrecedentLoader.MostlyCaps(tail.value)
  }

  /** `isSectionHeading`; `isAllCapsHeading` is the loader's test. */
  predicate IsSectionHeading(text: string) {
    IsTopLevelNumberedHeading(text) || PrecedentLoader.IsAllCapsHeading(text)
  }

  /** On one-line text the script's heading test is the loader's. They part
      only on line breaks: Python's `$` accepts a final `\n` that the script
      refuses, and Python's `.` accepts a `\r` that the script refuses. */
  lemma HeadingsAgreeOnOneLine(text: string)
    requires forall i :: 0 <= i < |text| ==> !IsLineTerminator(text[i])
    ensures IsTopLevelNumberedHeading(text) == PrecedentLoader.IsTopLevelNumberedHeading(text)
    ensures IsSectionHeading(text) == PrecedentLoader.IsSectionHeading(text)
  {
    NumberedHeadingsAgreeOnOneLine(text);
  }

  lemma NumberedHeadingsAgreeOnOneLine(text: string)
    requires forall i :: 0 <= i < |text| ==> !IsLineTerminator(text[i])
    ensures IsTopLevelNumberedHeading(text) == PrecedentLoader.IsTopLevelNumberedHeading(text)
  {
    var rest := PrecedentLoader.AfterNumber(text);
    if rest.Some? {
      var r := rest.value;
      assert forall i :: 0 <= i < |r| ==> r[i] == text[|text| - |r| + i];
      assert JsTail(r) == Some(r);
      assert r != [] && r[|r| - 1] != '\n';
      assert PrecedentLoader.PythonTail(r) == Some(r);
      assert IsTopLevelNumberedHeading(text) == PrecedentLoader.MostlyCaps(r);
      assert PrecedentLoader.IsTopLevelNumberedHeading(text) == PrecedentLoader.MostlyCaps(r);
    }
  }

  /** The text where the two tests disagree: a numbered heading followed by
      one line break. */
  lemma HeadingsDifferOnFinalLineBreak()
    ensures PrecedentLoader.IsTopLevelNumberedHeading("1. TERM\n")
    ensures !IsTopLevelNumberedHeading("1. TERM\n")
  {
    var text := "1. TERM\n";
    assert PrecedentLoader.LeadingCount(text, IsDigit) == 1 by {
      assert PrecedentLoader.LeadingCount(text[1..], IsDigit) == 0;
    }
    var after := text[2..];
    assert after == " TERM\n";
    assert PrecedentLoader.LeadingCount(after, IsSpace) == 1 by {
      assert PrecedentLoader.LeadingCount(after[1..], IsSpace) == 0;
    }
    var rest := after[1..];
    assert rest == "TERM\n";
    assert PrecedentLoader.AfterNumber(text) == Some(rest);
    assert rest[..4] == "TERM";
    assert PrecedentLoader.PythonTail(rest) == Some("TERM");
    assert PrecedentLoader.LetterCount("TERM") == 4 by {
      assert "TERM"[1..] == "ERM" && "ERM"[1..] == "RM" && "RM"[1..] == "M" && "M"[1..] == [];
    }
    assert PrecedentLoader.UpperCount("TERM") == 4 by {
      assert "TERM"[1..] == "ERM" && "ERM"[1..] == "RM" && "RM"[1..] == "M" && "M"[1..] == [];
    }
    assert IsLineTerminator(rest[4]);
  }

  // ---------------------------------------------------------------------
  // Placeholders and the outline (ingest-precedents.ts:96-161)
  // ---------------------------------------------------------------------

  /** `extractPlaceholders`: each line's matches go into a `Set`, kept here
      as its elements in insertion order, which is then sorted. It agrees
      with the loader's `_extract_placeholders`, whose order is by code point;
      the script's `.sort()` compares UTF-16 code units instead. */
  method ExtractPlaceholders(lines: seq<string>) returns (r: seq<string>)
    ensures r == PrecedentLoader.ExtractPlaceholders(lines)
    ensures StrictlySorted(r)
    ensures forall i :: 0 <= i < |r| ==> r[i] != [] && Trim(r[i]) == r[i]
  {
    var found: seq<string> := [];
    for n := 0 to |lines|
      invariant forall k :: k in found <==> k in PrecedentLoader.AllKeys(lines[..n])
    {
      assert lines[..n + 1] == lines[..n] + [lines[n]];
      AllKeysSnoc(lines[..n], lines[n]);
      if lines[n] == [] {
        continue;
      }
      var keys := PrecedentLoader.PlaceholderKeys(lines[n]);
      for m := 0 to |keys|
        invariant forall k :: k in found <==> k in PrecedentLoader.AllKeys(lines[..n]) || k in keys[..m]
      {
        assert keys[..m + 1] == keys[..m] + [keys[m]];
        if keys[m] !in found {
          found := found + [keys[m]];
        }
      }
      assert keys[..|keys|] == keys;
    }
    assert lines[..|lines|] == lines;
    r := SortedDistinct(found);
    StrictlySortedUnique(r, PrecedentLoader.ExtractPlaceholders(lines));
  }

  lemma AllKeysSnoc(lines: seq<string>, line: string)
    ensures forall k :: k in PrecedentLoader.AllKeys(lines + [line]) <==>
                        k in PrecedentLoader.AllKeys(lines) || k in PrecedentLoader.PlaceholderKeys(line)
  {
    var all := lines + [line];
    forall k ensures k in PrecedentLoader.AllKeys(all) <==>
                     k in PrecedentLoader.AllKeys(lines) || k in PrecedentLoader.PlaceholderKeys(line)
    {
      if k in PrecedentLoader.AllKeys(all) {
        var i :| 0 <= i < |all| && k in PrecedentLoader.PlaceholderKeys(all[i]);
        if i < |lines| {
          assert all[i] == lines[i];
        }
      }
      if k in PrecedentLoader.AllKeys(lines) {
        var i :| 0 <= i < |lines| && k in PrecedentLoader.PlaceholderKeys(lines[i]);
        assert all[i] == lines[i];
      }
      if k in PrecedentLoader.PlaceholderKeys(line) {
        assert all[|lines|] == line;
      }
    }
  }

  /** `paragraphs[0] && isAllCapsHeading(paragraphs[0])`. */
  predicate IsTitle(text: string) {
    text != [] && PrecedentLoader.IsAllCapsHeading(text)
  }

  /** `buildOutline`: the loader's loop with the script's heading test. */
  method BuildOutline(paragraphs: seq<string>) returns (outline: PrecedentOutline)
    ensures outline == PrecedentLoader.OutlineOf(paragraphs, IsTitle, IsSectionHeading)
    ensures outline.title.Some? <==> |paragraphs| > 0 && IsTitle(paragraphs[0])
    ensures |outline.sections| == PrecedentLoader.HeadingCount(PrecedentLoader.BodyParagraphs(paragraphs, IsTitle), IsSectionHeading)
    ensures forall i :: 0 <= i < |outline.sections| ==> IsSectionHeading(outline.sections[i].heading)
  {
    PrecedentLoader.OutlineOfShape(paragraphs, IsTitle, IsSectionHeading);
    outline := PrecedentLoader.BuildOutline(paragraphs, IsTitle, IsSectionHeading);
  }

  /** On one-line paragraphs the script and the loader build the same outline. */
  lemma OutlinesAgreeOnOneLine(paragraphs: seq<string>)
    requires forall n, i :: 0 <= n < |paragraphs| && 0 <= i < |paragraphs[n]| ==> !IsLineTerminator(paragraphs[n][i])
    ensures PrecedentLoader.OutlineOf(paragraphs, IsTitle, IsSectionHeading)
            == PrecedentLoader.OutlineOf(paragraphs, PrecedentLoader.IsAllCapsHeading, PrecedentLoader.IsSectionHeading)
  {
    var body := PrecedentLoader.BodyParagraphs(paragraphs, IsTitle);
    assert body == PrecedentLoader.BodyParagraphs(paragraphs, PrecedentLoader.IsAllCapsHeading);
    forall n | 0 <= n < |body| ensures IsSectionHeading(body[n]) == PrecedentLoader.IsSectionHeading(body[n]) {
      assert body[n] in paragraphs;
      HeadingsAgreeOnOneLine(body[n]);
    }
    ScanAgrees(body);
  }

  /** The loop's result depends on the heading test only through its answers. */
  lemma {:induction false} ScanAgrees(ps: seq<string>)
    requires forall n :: 0 <= n < |ps| ==> IsSectionHeading(ps[n]) == PrecedentLoader.IsSectionHeading(ps[n])
    ensures PrecedentLoader.ScanAll(ps, IsSectionHeading) == PrecedentLoader.ScanAll(ps, PrecedentLoader.IsSectionHeading)
    decreases |ps|
  {
    if ps != [] {
      ScanAgrees(ps[..|ps| - 1]);
    }
  }

  // ---------------------------------------------------------------------
  // Matching a precedent to a contract type (ingest-precedents.ts:163-198)
  // ---------------------------------------------------------------------

  predicate IsTokenChar(c: char) { IsLower(c) || IsDigit(c) }

  /** The run `current` as a token, when it is longer than two characters. */
  function Keep(current: string): seq<string> {
    if |current| > 2 then [current] else []
  }

  /** The maximal runs of token characters of `s`, continuing the run
      `current`, that are longer than two characters. */
  function TokenRuns(s: string, current: string): (r: seq<string>)
    requires forall i :: 0 <= i < |current| ==> IsTokenChar(current[i])
    ensures forall t :: t in r ==> |t| > 2 && forall i :: 0 <= i < |t| ==> IsTokenChar(t[i])
    decreases |s|
  {
    if s == [] then Keep(current)
    else if IsTokenChar(s[0]) then TokenRuns(s[1..], current + [s[0]])
    else Keep(current) + TokenRuns(s[1..], [])
  }

  /** `tokenize`: lower-case the text, split it at every run of characters
      outside `[a-z0-9]`, and keep the pieces longer than two characters. */
  function Tokenize(text: string): (r: seq<string>)
    ensures forall t :: t in r ==> |t| > 2 && forall i :: 0 <= i < |t| ==> IsTokenChar(t[i])
  {
    TokenRuns(Lower(text), [])
  }

  /** A character that is neither a letter nor a digit separates tokens. */
  lemma {:induction false} TokenRunsSplit(a: string, c: char, b: string, current: string)
    requires !IsTokenChar(c)
    requires forall i :: 0 <= i < |current| ==> IsTokenChar(current[i])
    ensures TokenRuns(a + [c] + b, current) == TokenRuns(a, current) + TokenRuns(b, [])
    decreases |a|
  {
    if a == [] {
      assert (a + [c] + b)[1..] == b;
    } else {
      assert (a + [c] + b)[1..] == a[1..] + [c] + b;
      if IsTokenChar(a[0]) {
        TokenRunsSplit(a[1..], c, b, current + [a[0]]);
      } else {
        TokenRunsSplit(a[1..], c, b, []);
      }
    }
  }

  /** Tokenising splits at every character that is neither a letter nor a
      digit: the tokens of `a + [c] + b` are those of `a`, then those of `b`. */
  lemma TokenizeSplits(a: string, c: char, b: string)
    requires !IsLetter(c) && !IsDigit(c)
    ensures Tokenize(a + [c] + b) == Tokenize(a) + Tokenize(b)
  {
    assert Lower(a + [c] + b) == Lower(a) + [c] + Lower(b);
    TokenRunsSplit(Lower(a), c, Lower(b), []);
  }

  /** A run of token characters is one token when longer than two. */
  lemma {:induction false} TokenRunsWhole(s: string, current: string)
    requires forall i :: 0 <= i < |current| ==> IsTokenChar(current[i])
    requires forall i :: 0 <= i < |s| ==> IsTokenChar(s[i])
    ensures TokenRuns(s, current) == Keep(current + s)
    decreases |s|
  {
    if s != [] {
      TokenRunsWhole(s[1..], current + [s[0]]);
      assert current + [s[0]] + s[1..] == current + s;
    } else {
      assert current + s == current;
    }
  }

  /** `scoreTokens(a, b)`: how many tokens of `a` are also in `b`. */
  function ScoreTokens(a: seq<string>, b: seq<string>): (n: nat)
    ensures n <= |a|
  {
    if a == [] then 0 else (if a[0] in b then 1 else 0) + ScoreTokens(a[1..], b)
  }

  predicate Distinct(xs: seq<string>) {
    forall i, j :: 0 <= i < j < |xs| ==> xs[i] != xs[j]
  }

  /** For sets (distinct tokens) the score is the size of the intersection. */
  lemma {:induction false} ScoreIsIntersection(a: seq<string>, b: seq<string>)
    requires Distinct(a)
    ensures ScoreTokens(a, b) == |(set t | t in a) * (set t | t in b)|
  {
    if a != [] {
      ScoreIsIntersection(a[1..], b);
      var rest := (set t | t in a[1..]) * (set t | t in b);
      assert a[0] !in a[1..] by {
        forall j | 0 <= j < |a[1..]| ensures a[1..][j] != a[0] {
          assert a[1..][j] == a[j + 1];
        }
      }
      if a[0] in b {
        assert (set t | t in a) * (set t | t in b) == rest + {a[0]};
      } else {
        assert (set t | t in a) * (set t | t in b) == rest;
      }
    } else {
      assert (set t | t in a) == {};
    }
  }

  /** The columns of a contract type that the matching reads. */
  datatype ContractTypeRow = ContractTypeRow(id: string, name: Option<string>, slug: Option<string>)

  /** The tokens of a contract type's name and slug. */
  function TypeTokens(ct: ContractTypeRow): seq<string> {
    Tokenize(OrEmpty(ct.name)) + Tokenize(OrEmpty(ct.slug))
  }

  predicate IsCandidate(ct: ContractTypeRow) { TypeTokens(ct) != [] }

  /** How well a contract type matches the document tokens. */
  function Score(ct: ContractTypeRow, docTokens: seq<string>): nat {
    ScoreTokens(docTokens, TypeTokens(ct))
  }

  /** Each type's score, or None for a type without tokens. */
  function Scores(types: seq<ContractTypeRow>, docTokens: seq<string>): (r: seq<Option<nat>>)
    ensures |r| == |types|
    ensures forall i :: 0 <= i < |types| ==>
              r[i] == if IsCandidate(types[i]) then Some(Score(types[i], docTokens)) else None
  {
    seq(|types|, i requires 0 <= i < |types| =>
      if IsCandidate(types[i]) then Some(Score(types[i], docTokens)) else None)
  }

  /** The best of `scores`, as its index and score: skipped entries are
      None, and a later entry replaces the best only with a strictly higher
      score. */
  function BestOf(scores: seq<Option<nat>>): (r: Option<(nat, nat)>)
    ensures r.Some? ==> r.value.0 < |scores| && scores[r.value.0] == Some(r.value.1)
    decreases |scores|
  {
    if scores == [] then None
    else
      var best := BestOf(scores[..|scores| - 1]);
      var last := scores[|scores| - 1];
      if last.None? then best
      else if best.None? || last.value > best.value.1 then Some((|scores| - 1, last.value))
      else best
  }

  /** There is no best exactly when every entry is skipped. */
  lemma {:induction false} BestOfNoneIffAllSkipped(scores: seq<Option<nat>>)
    ensures BestOf(scores).None? <==> forall j :: 0 <= j < |scores| ==> scores[j].None?
    decreases |scores|
  {
    if scores != [] {
      var init := scores[..|scores| - 1];
      BestOfNoneIffAllSkipped(init);
      assert forall j :: 0 <= j < |init| ==> init[j] == scores[j];
    }
  }

  /** The best is the first entry with the highest score. */
  lemma {:induction false} BestOfIsFirstMaximum(scores: seq<Option<nat>>)
    requires BestOf(scores).Some?
    ensures var (k, score) := BestOf(scores).value;
            && (forall j :: 0 <= j < |scores| && scores[j].Some? ==> scores[j].value <= score)
            && (forall j :: 0 <= j < k && scores[j].Some? ==> scores[j].value < score)
    decreases |scores|
  {
    var init := scores[..|scores| - 1];
    assert forall j :: 0 <= j < |init| ==> init[j] == scores[j];
    if BestOf(init).Some? {
      BestOfIsFirstMaximum(init);
    } else {
      BestOfNoneIffAllSkipped(init);
    }
  }

  /** Extending the entries by one updates the best as the loop does. */
  lemma BestOfStep(scores: seq<Option<nat>>, i: nat)
    requires i < |scores|
    ensures var best := BestOf(scores[..i]);
            BestOf(scores[..i + 1]) ==
              if scores[i].None? then best
              else if best.None? || scores[i].value > best.value.1 then Some((i, scores[i].value))
              else best
  {
    assert scores[..i + 1][..i] == scores[..i];
  }

  /** `resolveContractType`: the best candidate, unless its score is below 2. */
  method ResolveContractType(types: seq<ContractTypeRow>, docTokens: seq<string>) returns (r: Option<ContractTypeRow>)
    requires Distinct(docTokens)
    ensures var best := BestOf(Scores(types, docTokens));
            r == if best.None? || best.value.1 < 2 then None else Some(types[best.value.0])
  {
    ghost var scores := Scores(types, docTokens);
    var best: Option<(ContractTypeRow, nat)> := None;
    for i := 0 to |types|
      invariant best.None? == BestOf(scores[..i]).None?
      invariant best.Some? ==> best.value == (types[BestOf(scores[..i]).value.0], BestOf(scores[..i]).value.1)
    {
      BestOfStep(scores, i);
      var ct := types[i];
      var ctTokens := Tokenize(OrEmpty(ct.name)) + Tokenize(OrEmpty(ct.slug));
      assert scores[i] == if ctTokens == [] then None else Some(ScoreTokens(docTokens, ctTokens));
      if |ctTokens| == 0 {
        continue;
      }
      var score := ScoreTokens(docTokens, ctTokens);
      if best.None? || score > best.value.1 {
        best := Some((ct, score));
      }
    }
    assert scores[..|types|] == scores;
    if best.None? {
      return None;
    }
    if best.value.1 < 2 {
      return None;
    }
    return Some(best.value.0);
  }

  /** The best score is below 2, or missing, exactly when every entry that
      is not skipped is below 2. */
  lemma BestBelowTwo(scores: seq<Option<nat>>)
    ensures (BestOf(scores).None? || BestOf(scores).value.1 < 2) <==>
            forall j :: 0 <= j < |scores| && scores[j].Some? ==> scores[j].value < 2
  {
    BestOfNoneIffAllSkipped(scores);
    if BestOf(scores).Some? {
      BestOfIsFirstMaximum(scores);
    }
  }

  /** No type is resolved exactly when no type has tokens or every type
      with tokens scores below 2. */
  lemma ResolveNoneMeaning(types: seq<ContractTypeRow>, docTokens: seq<string>)
    ensures var best := BestOf(Scores(types, docTokens));
            (best.None? || best.value.1 < 2) <==>
            forall j :: 0 <= j < |types| && IsCandidate(types[j]) ==> Score(types[j], docTokens) < 2
  {
    var scores := Scores(types, docTokens);
    BestBelowTwo(scores);
    forall j | 0 <= j < |types|
      ensures scores[j].Some? <==> IsCandidate(types[j])
      ensures scores[j].Some? ==> scores[j].value == Score(types[j], docTokens)
    {
    }
  }

  /** A resolved type has tokens, and its score is no lower than any other
      type's and higher than any earlier type's. */
  lemma ResolveBestMeaning(types: seq<ContractTypeRow>, docTokens: seq<string>)
    ensures var best := BestOf(Scores(types, docTokens));
            best.Some? ==>
              var (k, score) := best.value;
              && IsCandidate(types[k]) && score == Score(types[k], docTokens)
              && (forall j :: 0 <= j < |types| && IsCandidate(types[j]) ==> Score(types[j], docTokens) <= score)
              && (forall j :: 0 <= j < k && IsCandidate(types[j]) ==> Score(types[j], docTokens) < score)
  {
    var scores := Scores(types, docTokens);
    if BestOf(scores).Some? {
      var (k, score) := BestOf(scores).value;
      assert scores[k] == Some(Score(types[k], docTokens));
      ResolveBestIsMaximum(types, docTokens);
      ResolveBestIsFirst(types, docTokens);
    }
  }

  /** The resolved score is no lower than any candidate's. */
  lemma ResolveBestIsMaximum(types: seq<ContractTypeRow>, docTokens: seq<string>)
    ensures var best := BestOf(Scores(types, docTokens));
            best.Some? ==>
              forall j :: 0 <= j < |types| && IsCandidate(types[j]) ==> Score(types[j], docTokens) <= best.value.1
  {
    var scores := Scores(types, docTokens);
    if BestOf(scores).Some? {
      BestOfIsFirstMaximum(scores);
      forall j | 0 <= j < |types| && IsCandidate(types[j])
        ensures Score(types[j], docTokens) <= BestOf(scores).value.1
      {
        assert scores[j] == Some(Score(types[j], docTokens));
      }
    }
  }

  /** The resolved score is higher than any earlier candidate's. */
  lemma ResolveBestIsFirst(types: seq<ContractTypeRow>, docTokens: seq<string>)
    ensures var best := BestOf(Scores(types, docTokens));
            best.Some? ==>
              forall j :: 0 <= j < best.value.0 && IsCandidate(types[j]) ==> Score(types[j], docTokens) < best.value.1
  {
    var scores := Scores(types, docTokens);
    if BestOf(scores).Some? {
      BestOfIsFirstMaximum(scores);
      forall j | 0 <= j < BestOf(scores).value.0 && IsCandidate(types[j])
        ensures Score(types[j], docTokens) < BestOf(scores).value.1
      {
        assert scores[j] == Some(Score(types[j], docTokens));
      }
    }
  }
}
