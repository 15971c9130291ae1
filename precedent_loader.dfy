/** Building a precedent outline from the paragraphs of a Word document
    (mlend/precedent_loader.py): an optional all-caps title, the front matter
    before the first heading, one section per heading, and the sorted
    distinct `{{ key }}` placeholders of all of it. Reading the paragraphs out
    of the .docx archive is not part of this model: the builder takes them as
    its input. */
module PrecedentLoader {
  import opened Strings
  import opened Outlines

  // ---------------------------------------------------------------------
  // Typographic normalisation (precedent_loader.py:15-26)
  // ---------------------------------------------------------------------

  /** The en and em dashes and the curly quotes the loader rewrites. */
  predicate IsTypographic(c: char) {
    c == '\U{2013}' || c == '\U{2014}' || c == '\U{2018}' || c == '\U{2019}'
    || c == '\U{201C}' || c == '\U{201D}'
  }

  function NormalizeChar(c: char): (r: char)
    ensures !IsTypographic(r)
    ensures !IsTypographic(c) ==> r == c
    ensures c == '\U{2013}' || c == '\U{2014}' ==> r == '-'
    ensures c == '\U{2018}' || c == '\U{2019}' ==> r == '\''
    ensures c == '\U{201C}' || c == '\U{201D}' ==> r == '"'
  {
    if c == '\U{2013}' || c == '\U{2014}' then '-'
    else if c == '\U{2018}' || c == '\U{2019}' then '\''
    else if c == '\U{201C}' || c == '\U{201D}' then '"'
    else c
  }

  /** `_normalize_text`: the six replacements, each a single character for a
      single character, so applying them one after another is a map over
      the characters. */
  function NormalizeText(s: string): (r: string)
    ensures |r| == |s|
    ensures forall i :: 0 <= i < |r| ==> !IsTypographic(r[i])
    ensures forall i :: 0 <= i < |s| && !IsTypographic(s[i]) ==> r[i] == s[i]
  {
    if s == [] then [] else [NormalizeChar(s[0])] + NormalizeText(s[1..])
  }

  /** Normalising twice is normalising once. */
  lemma {:induction false} NormalizeTextIdempotent(s: string)
    ensures NormalizeText(NormalizeText(s)) == NormalizeText(s)
  {
    if s != [] {
      NormalizeTextIdempotent(s[1..]);
      assert NormalizeText(s)[1..] == NormalizeText(s[1..]);
    }
  }

  // ---------------------------------------------------------------------
  // Heading detection (precedent_loader.py:29-59)
  // ---------------------------------------------------------------------

  /** `len(_letters(text))`. */
  function LetterCount(s: string): (n: nat)
    ensures n <= |s|
  {
    if s == [] then 0 else (if IsLetter(s[0]) then 1 else 0) + LetterCount(s[1..])
  }

  /** The number of upper-case letters of `s`. */
  function UpperCount(s: string): (n: nat)
    ensures n <= LetterCount(s)
  {
    if s == [] then 0 else (if IsUpper(s[0]) then 1 else 0) + UpperCount(s[1..])
  }

  /** `_caps_ratio(text) >= 0.6`, in integers: no letters gives ratio 0. */
  predicate MostlyCaps(s: string) {
    LetterCount(s) > 0 && 5 * UpperCount(s) >= 3 * LetterCount(s)
  }

  /** `_is_all_caps_heading`: at least one letter, at most 120 characters,
      and no lower-case letter. */
  predicate IsAllCapsHeading(text: string) {
    LetterCount(text) > 0 && |text| <= 120
    && forall i :: 0 <= i < |text| && IsLetter(text[i]) ==> IsUpper(text[i])
  }

  /** With no lower-case letter, every letter counts as upper case. */
  lemma {:induction false} NoLowerAllUpper(s: string)
    requires forall i :: 0 <= i < |s| && IsLetter(s[i]) ==> IsUpper(s[i])
    ensures UpperCount(s) == LetterCount(s)
  {
    if s != [] {
      NoLowerAllUpper(s[1..]);
    }
  }

  /** A lower-case letter keeps the upper count below the letter count. */
  lemma {:induction false} SomeLowerFewerUpper(s: string, i: nat)
    requires i < |s| && IsLower(s[i])
    ensures UpperCount(s) < LetterCount(s)
  {
    if i > 0 {
      SomeLowerFewerUpper(s[1..], i - 1);
    }
  }

  /** An all-caps heading is exactly a text of at most 120 characters whose
      caps ratio is 1.0. */
  lemma AllCapsIffFullRatio(text: string)
    ensures IsAllCapsHeading(text) <==>
            (LetterCount(text) > 0 && |text| <= 120 && UpperCount(text) == LetterCount(text))
  {
    if forall i :: 0 <= i < |text| && IsLetter(text[i]) ==> IsUpper(text[i]) {
      NoLowerAllUpper(text);
    } else {
      var i :| 0 <= i < |text| && IsLetter(text[i]) && !IsUpper(text[i]);
      SomeLowerFewerUpper(text, i);
    }
  }

  /** The length of the longest prefix of `s` whose characters satisfy `p`. */
  function LeadingCount(s: string, p: char -> bool): (n: nat)
    ensures n <= |s|
    ensures forall i :: 0 <= i < n ==> p(s[i])
    ensures n < |s| ==> !p(s[n])
  {
    if s != [] && p(s[0]) then 1 + LeadingCount(s[1..], p) else 0
  }

  /** What `^(\d+)\.\s+(.+)$` leaves after the number, the dot and the
      whitespace, when that rest is not empty; None when the text does not
      start that way. The regular expression can still match a text whose
      rest is empty, but then group 2 is whitespace, which has no letters,
      so no heading is lost by answering None there. */
  function AfterNumber(text: string): (r: Option<string>)
    ensures r.Some? ==> r.value != [] && !IsSpace(r.value[0]) && EndsWith(text, r.value)
  {
    var d := LeadingCount(text, IsDigit);
    if d == 0 || d == |text| || text[d] != '.' then None
    else
      var after := text[d + 1..];
      var w := LeadingCount(after, IsSpace);
      if w == 0 || w == |after| then None
      else Some(after[w..])
  }

  /** Python's `.` and `$`: the rest must hold no line break, except that
      `$` also matches just before one final line break, which group 2 then
      leaves out. */
  function PythonTail(rest: string): (r: Option<string>)
    ensures r.Some? ==> forall i :: 0 <= i < |r.value| ==> r.value[i] != '\n'
    ensures r.Some? ==> r.value == rest || r.value + "\n" == rest
  {
    var body := if rest != [] && rest[|rest| - 1] == '\n' then rest[..|rest| - 1] else rest;
    if forall i :: 0 <= i < |body| ==> body[i] != '\n' then Some(body) else None
  }

  /** `_is_top_level_numbered_heading`: a number, a dot, whitespace, then a
      one-line tail whose caps ratio is at least 0.6. */
  predicate IsTopLevelNumberedHeading(text: string) {
    var rest := AfterNumber(text);
    rest.Some? && var tail := PythonTail(rest.value);
    tail.Some? && MostlyCaps(tail.value)
  }

  /** `_is_section_heading`. */
  predicate IsSectionHeading(text: string) {
    IsTopLevelNumberedHeading(text) || IsAllCapsHeading(text)
  }

  /** A numbered heading is a text that starts with a digit, whose tail has
      letters; an unnumbered text is a heading only when it is all caps. */
  lemma NumberedHeadingShape(text: string)
    ensures IsTopLevelNumberedHeading(text) ==> IsDigit(text[0]) && LetterCount(text) > 0
    ensures text != [] && !IsDigit(text[0]) ==> (IsSectionHeading(text) <==> IsAllCapsHeading(text))
  {
    if IsTopLevelNumberedHeading(text) {
      var tail := PythonTail(AfterNumber(text).value).value;
      SuffixLetters(text, AfterNumber(text).value);
      PrefixLetters(AfterNumber(text).value, tail);
    }
  }

  /** A suffix has no more letters than the whole. */
  lemma {:induction false} SuffixLetters(s: string, suffix: string)
    requires EndsWith(s, suffix)
    ensures LetterCount(suffix) <= LetterCount(s)
  {
    if |suffix| < |s| {
      assert EndsWith(s[1..], suffix) by {
        assert s[1..][|s| - 1 - |suffix|..] == s[|s| - |suffix|..];
      }
      SuffixLetters(s[1..], suffix);
    } else {
      assert s == suffix;
    }
  }

  /** A prefix has no more letters than the whole. */
  lemma {:induction false} PrefixLetters(s: string, prefix: string)
    requires prefix == s || prefix + "\n" == s
    ensures LetterCount(prefix) <= LetterCount(s)
  {
    if prefix != s {
      LetterCountAppend(prefix, "\n");
    }
  }

  lemma {:induction false} LetterCountAppend(a: string, b: string)
    ensures LetterCount(a + b) == LetterCount(a) + LetterCount(b)
  {
    if a != [] {
      assert (a + b)[1..] == a[1..] + b;
      LetterCountAppend(a[1..], b);
    } else {
      assert a + b == b;
    }
  }

  // ---------------------------------------------------------------------
  // Placeholders (precedent_loader.py:77-84)
  // ---------------------------------------------------------------------

  /** The index of the first `}` at or after `j`, or `|s|` when there is none. */
  function FirstClose(s: string, j: nat): (c: nat)
    requires j <= |s|
    ensures j <= c <= |s|
    ensures forall k :: j <= k < c ==> s[k] != '}'
    ensures c < |s| ==> s[c] == '}'
    decreases |s| - j
  {
    if j == |s| || s[j] == '}' then j else FirstClose(s, j + 1)
  }

  /** `s[i..j+2]` is `{{ m }}` with `m` trimming to `key`. */
  predicate WrappedAt(s: string, i: nat, j: nat, key: string) {
    i + 2 <= j && j + 2 <= |s| && s[i] == '{' && s[i + 1] == '{' && s[j] == '}' && s[j + 1] == '}'
    && Trim(s[i + 2..j]) == key
  }

  /** Where the inside of a `{{ ... }}` match starting at the front of `s`
      ends: the first `}` after the braces, when the inside is not empty
      and a second `}` follows it. */
  function MatchEnd(s: string): (c: Option<nat>)
    ensures c.Some? ==> 2 < c.value && c.value + 2 <= |s| && WrappedAt(s, 0, c.value, Trim(s[2..c.value]))
  {
    if |s| >= 2 && s[0] == '{' && s[1] == '{' then
      var c := FirstClose(s, 2);
      if c > 2 && c + 1 < |s| && s[c + 1] == '}' then Some(c) else None
    else None
  }

  /** The stripped, non-blank matches of `{{\s*([^}]+?)\s*}}` in `line`, left
      to right. A match starts at `{{`, its inside runs to the first `}`,
      and it needs a second `}` right after; when it does not match, the
      search resumes one character further on. */
  function PlaceholderKeys(line: string): (r: seq<string>)
    ensures forall i :: 0 <= i < |r| ==> r[i] != [] && Trim(r[i]) == r[i]
    decreases |line|
  {
    if |line| < 2 then []
    else
      match MatchEnd(line)
      case Some(c) =>
        var key := Trim(line[2..c]);
        TrimIdempotent(line[2..c]);
        var rest := PlaceholderKeys(line[c + 2..]);
        if key != [] then [key] + rest else rest
      case None => PlaceholderKeys(line[1..])
  }

  /** A match found in a suffix is a match in the whole line. */
  lemma WrappedShift(line: string, d: nat, i: nat, j: nat, key: string)
    requires d <= |line| && WrappedAt(line[d..], i, j, key)
    ensures WrappedAt(line, i + d, j + d, key)
  {
    assert line[d..][i + 2..j] == line[i + d + 2..j + d];
  }

  /** Every key found sits between `{{` and `}}` in the line. */
  lemma {:induction false} PlaceholderKeysWrapped(line: string, key: string)
    requires key in PlaceholderKeys(line)
    ensures exists i: nat, j: nat :: WrappedAt(line, i, j, key)
    decreases |line|
  {
    var m := MatchEnd(line);
    if m.Some? {
      var c := m.value;
      if key == Trim(line[2..c]) {
        assert WrappedAt(line, 0, c, key);
      } else {
        assert key in PlaceholderKeys(line[c + 2..]);
        PlaceholderKeysWrapped(line[c + 2..], key);
        var i: nat, j: nat :| WrappedAt(line[c + 2..], i, j, key);
        WrappedShift(line, c + 2, i, j, key);
      }
    } else {
      PlaceholderKeysWrapped(line[1..], key);
      var i: nat, j: nat :| WrappedAt(line[1..], i, j, key);
      WrappedShift(line, 1, i, j, key);
    }
  }

  /** The keys of all lines, in order, duplicates kept. */
  function AllKeys(lines: seq<string>): (r: seq<string>)
    ensures forall k :: k in r ==> k != [] && Trim(k) == k
    ensures forall k :: k in r <==> exists i :: 0 <= i < |lines| && k in PlaceholderKeys(lines[i])
  {
    if lines == [] then []
    else
      var r := PlaceholderKeys(lines[0]) + AllKeys(lines[1..]);
      assert forall k :: (exists i :: 0 <= i < |lines| && k in PlaceholderKeys(lines[i])) ==>
                         k in PlaceholderKeys(lines[0]) || exists i :: 0 <= i < |lines[1..]| && k in PlaceholderKeys(lines[1..][i]) by {
        forall k | exists i :: 0 <= i < |lines| && k in PlaceholderKeys(lines[i])
          ensures k in PlaceholderKeys(lines[0]) || exists i :: 0 <= i < |lines[1..]| && k in PlaceholderKeys(lines[1..][i])
        {
          var i :| 0 <= i < |lines| && k in PlaceholderKeys(lines[i]);
          if i > 0 {
            assert lines[1..][i - 1] == lines[i];
          }
        }
      }
      r
  }

  /** `_extract_placeholders`: `sorted(set(found))`. */
  function ExtractPlaceholders(lines: seq<string>): (r: seq<string>)
    ensures StrictlySorted(r)
    ensures forall k :: k in r <==> exists i :: 0 <= i < |lines| && k in PlaceholderKeys(lines[i])
    ensures forall i :: 0 <= i < |r| ==> r[i] != [] && Trim(r[i]) == r[i]
  {
    var r := SortedDistinct(AllKeys(lines));
    assert forall i :: 0 <= i < |r| ==> r[i] in AllKeys(lines);
    r
  }

  /** Each extracted placeholder sits between `{{` and `}}` in one of the lines. */
  lemma PlaceholdersWrapped(lines: seq<string>, key: string)
    requires key in ExtractPlaceholders(lines)
    ensures exists n, i: nat, j: nat :: 0 <= n < |lines| && WrappedAt(lines[n], i, j, key)
  {
    var n :| 0 <= n < |lines| && key in PlaceholderKeys(lines[n]);
    PlaceholderKeysWrapped(lines[n], key);
  }

  // ---------------------------------------------------------------------
  // The outline builder (precedent_loader.py:87-139)
  // ---------------------------------------------------------------------

  /** A heading paragraph and the paragraphs after it, up to the next heading. */
  datatype Group = Group(heading: string, lines: seq<string>)

  /** What the paragraph loop has built so far: the front matter, the
      finished groups and the open one. */
  datatype Scan = Scan(frontMatter: seq<string>, closed: seq<Group>, current: Option<Group>)

  /** One turn of the loop. A heading closes the open group and opens a new
      one; any other paragraph is front matter until the first heading and
      a body line of the open group afterwards. */
  function ScanStep(s: Scan, text: string, isHeading: string -> bool): Scan {
    if isHeading(text) then
      Scan(s.frontMatter, if s.current.Some? then s.closed + [s.current.value] else s.closed, Some(Group(text, [])))
    else if s.current.None? then Scan(s.frontMatter + [text], s.closed, None)
    else Scan(s.frontMatter, s.closed, Some(Group(s.current.value.heading, s.current.value.lines + [text])))
  }

  /** The loop run over all of `ps`. */
  function ScanAll(ps: seq<string>, isHeading: string -> bool): Scan
    decreases |ps|
  {
    if ps == [] then Scan([], [], None)
    else ScanStep(ScanAll(ps[..|ps| - 1], isHeading), ps[|ps| - 1], isHeading)
  }

  /** The groups the loop ends with, the open one included. */
  function Groups(s: Scan): seq<Group> {
    if s.current.Some? then s.closed + [s.current.value] else s.closed
  }

  /** The paragraphs of a list of groups, headings and bodies, in order. */
  function FlattenGroups(gs: seq<Group>): seq<string> {
    if gs == [] then [] else [gs[0].heading] + gs[0].lines + FlattenGroups(gs[1..])
  }

  lemma {:induction false} FlattenGroupsAppend(gs: seq<Group>, g: Group)
    ensures FlattenGroups(gs + [g]) == FlattenGroups(gs) + [g.heading] + g.lines
  {
    if gs != [] {
      assert (gs + [g])[1..] == gs[1..] + [g];
      FlattenGroupsAppend(gs[1..], g);
    } else {
      assert FlattenGroups([g]) == [g.heading] + g.lines + FlattenGroups([]);
    }
  }

  /** The number of headings among `ps`. */
  function HeadingCount(ps: seq<string>, isHeading: string -> bool): nat
    decreases |ps|
  {
    if ps == [] then 0
    else HeadingCount(ps[..|ps| - 1], isHeading) + (if isHeading(ps[|ps| - 1]) then 1 else 0)
  }

  /** The loop's state keeps every paragraph it has seen, in order. */
  function Flat(s: Scan): seq<string> {
    s.frontMatter + FlattenGroups(Groups(s))
  }

  /** The loop classifies the paragraphs correctly. */
  predicate Classified(s: Scan, isHeading: string -> bool) {
    (s.current.None? ==> s.closed == [])
    && (forall i :: 0 <= i < |s.frontMatter| ==> !isHeading(s.frontMatter[i]))
    && (forall g :: g in Groups(s) ==> isHeading(g.heading))
    && (forall g :: g in Groups(s) ==> forall i :: 0 <= i < |g.lines| ==> !isHeading(g.lines[i]))
  }

  lemma StepFlat(s: Scan, t: string, isHeading: string -> bool)
    requires s.current.None? ==> s.closed == []
    ensures Flat(ScanStep(s, t, isHeading)) == Flat(s) + [t]
  {
    if isHeading(t) {
      if s.current.Some? {
        FlattenGroupsAppend(s.closed, s.current.value);
      }
      FlattenGroupsAppend(Groups(s), Group(t, []));
    } else if s.current.Some? {
      var g := s.current.value;
      FlattenGroupsAppend(s.closed, g);
      FlattenGroupsAppend(s.closed, Group(g.heading, g.lines + [t]));
    } else {
      assert FlattenGroups([]) == [];
    }
  }

  lemma StepClassified(s: Scan, t: string, isHeading: string -> bool)
    requires Classified(s, isHeading)
    ensures Classified(ScanStep(s, t, isHeading), isHeading)
    ensures |Groups(ScanStep(s, t, isHeading))| == |Groups(s)| + (if isHeading(t) then 1 else 0)
  {
    var s' := ScanStep(s, t, isHeading);
    if !isHeading(t) && s.current.Some? {
      forall g | g in Groups(s') ensures forall i :: 0 <= i < |g.lines| ==> !isHeading(g.lines[i]) {
        if g !in Groups(s) {
          assert g == s'.current.value;
          assert s.current.value in Groups(s);
        }
      }
    }
  }

  /** The loop partitions the paragraphs: front matter, then each heading
      followed by its body lines, in order, each paragraph exactly once; the
      front matter holds no heading, every group starts with a heading and
      holds no other, and there is one group per heading. */
  lemma {:induction false} ScanPartition(ps: seq<string>, isHeading: string -> bool)
    ensures Classified(ScanAll(ps, isHeading), isHeading)
    ensures Flat(ScanAll(ps, isHeading)) == ps
    ensures |Groups(ScanAll(ps, isHeading))| == HeadingCount(ps, isHeading)
    decreases |ps|
  {
    if ps != [] {
      var init, t := ps[..|ps| - 1], ps[|ps| - 1];
      ScanPartition(init, isHeading);
      var s := ScanAll(init, isHeading);
      StepFlat(s, t, isHeading);
      StepClassified(s, t, isHeading);
      assert ps == init + [t];
    } else {
      assert Flat(Scan([], [], None)) == [];
    }
  }

  /** A group as a section: its heading, and its body lines joined with
      line breaks and stripped. */
  function SectionOf(g: Group): Section {
    Section(g.heading, Trim(Join(g.lines, "\n")))
  }

  function SectionsOf(gs: seq<Group>): (r: seq<Section>)
    ensures |r| == |gs|
    ensures forall i :: 0 <= i < |gs| ==> r[i] == SectionOf(gs[i])
  {
    seq(|gs|, i requires 0 <= i < |gs| => SectionOf(gs[i]))
  }

  /** The title, when the first paragraph passes the title test. */
  function TitleOf(paragraphs: seq<string>, isTitle: string -> bool): Option<string> {
    if |paragraphs| > 0 && isTitle(paragraphs[0]) then Some(paragraphs[0]) else None
  }

  /** The paragraphs after the title. */
  function BodyParagraphs(paragraphs: seq<string>, isTitle: string -> bool): seq<string> {
    if TitleOf(paragraphs, isTitle).Some? then paragraphs[1..] else paragraphs
  }

  /** The lines searched for placeholders: the title when it is non-empty,
      the front matter, then each section's heading and body. */
  function PlaceholderLines(title: Option<string>, frontMatter: seq<string>, sections: seq<Section>): seq<string> {
    (if title.Some? && title.value != [] then [title.value] else []) + frontMatter + SectionLines(sections)
  }

  function SectionLines(sections: seq<Section>): seq<string> {
    if sections == [] then [] else [sections[0].heading, sections[0].body] + SectionLines(sections[1..])
  }

  /** The outline the builder produces from `paragraphs`, given the title
      test and the heading test. */
  function OutlineOf(paragraphs: seq<string>, isTitle: string -> bool, isHeading: string -> bool): PrecedentOutline {
    var title := TitleOf(paragraphs, isTitle);
    var scan := ScanAll(BodyParagraphs(paragraphs, isTitle), isHeading);
    var sections := SectionsOf(Groups(scan));
    PrecedentOutline(title, scan.frontMatter, sections, ExtractPlaceholders(PlaceholderLines(title, scan.frontMatter, sections)))
  }

  /** What the outline is, given the two tests: a title exactly when the
      first paragraph passes the title test; the other paragraphs split into
      front matter and groups with one section per heading; placeholders
      sorted, distinct and each found inside `{{ }}` in the outline's text. */
  lemma OutlineOfShape(paragraphs: seq<string>, isTitle: string -> bool, isHeading: string -> bool)
    ensures var o := OutlineOf(paragraphs, isTitle, isHeading);
            && (o.title.Some? <==> |paragraphs| > 0 && isTitle(paragraphs[0]))
            && (o.title.Some? ==> o.title.value == paragraphs[0])
            && |o.sections| == HeadingCount(BodyParagraphs(paragraphs, isTitle), isHeading)
            && (forall i :: 0 <= i < |o.sections| ==> isHeading(o.sections[i].heading))
            && (forall i :: 0 <= i < |o.frontMatter| ==> !isHeading(o.frontMatter[i]))
            && StrictlySorted(o.placeholders)
    ensures Flat(ScanAll(BodyParagraphs(paragraphs, isTitle), isHeading)) == BodyParagraphs(paragraphs, isTitle)
  {
    var scan := ScanAll(BodyParagraphs(paragraphs, isTitle), isHeading);
    ScanPartition(BodyParagraphs(paragraphs, isTitle), isHeading);
    var gs := Groups(scan);
    assert forall i :: 0 <= i < |gs| ==> gs[i] in gs;
  }

  /** Running the loop one paragraph further is one more step. */
  lemma ScanAllSnoc(ps: seq<string>, i: nat, isHeading: string -> bool)
    requires i < |ps|
    ensures ScanAll(ps[..i + 1], isHeading) == ScanStep(ScanAll(ps[..i], isHeading), ps[i], isHeading)
  {
    assert ps[..i + 1][..i] == ps[..i];
  }

  lemma SectionsOfAppend(gs: seq<Group>, g: Group)
    ensures SectionsOf(gs + [g]) == SectionsOf(gs) + [SectionOf(g)]
  {
    assert |SectionsOf(gs + [g])| == |SectionsOf(gs) + [SectionOf(g)]|;
  }

  /** `build_precedent_outline` after the paragraphs are read: the loop of
      the source over the paragraphs, with the two tests as parameters so
      that the ingest script's variant shares it. */
  method BuildOutline(paragraphs: seq<string>, isTitle: string -> bool, isHeading: string -> bool)
    returns (outline: PrecedentOutline)
    ensures outline == OutlineOf(paragraphs, isTitle, isHeading)
  {
    var title: Option<string> := None;
    var index := 0;
    if |paragraphs| > 0 && isTitle(paragraphs[0]) {
      title := Some(paragraphs[0]);
      index := 1;
    }
    var body := paragraphs[index..];
    assert body == BodyParagraphs(paragraphs, isTitle);

    var frontMatter: seq<string> := [];
    var sections: seq<Section> := [];
    var current: Option<Group> := None;
    var frontMatterDone := false;
    var i := 0;
    while i < |body|
      invariant 0 <= i <= |body|
      invariant frontMatter == ScanAll(body[..i], isHeading).frontMatter
      invariant sections == SectionsOf(ScanAll(body[..i], isHeading).closed)
      invariant current == ScanAll(body[..i], isHeading).current
      invariant frontMatterDone == current.Some?
    {
      var text := body[i];
      ScanAllSnoc(body, i, isHeading);
      if isHeading(text) {
        frontMatterDone := true;
        if current.Some? {
          SectionsOfAppend(ScanAll(body[..i], isHeading).closed, current.value);
          sections := sections + [SectionOf(current.value)];
        }
        current := Some(Group(text, []));
      } else {
        if !frontMatterDone {
          frontMatter := frontMatter + [text];
        } else if current.Some? {
          current := Some(Group(current.value.heading, current.value.lines + [text]));
        }
      }
      i := i + 1;
    }
    assert body[..i] == body;
    if current.Some? {
      SectionsOfAppend(ScanAll(body, isHeading).closed, current.value);
      sections := sections + [SectionOf(current.value)];
    }
    var lines := PlaceholderLines(title, frontMatter, sections);
    outline := PrecedentOutline(title, frontMatter, sections, ExtractPlaceholders(lines));
  }

  /** `build_precedent_outline` with the loader's own tests. */
  method BuildPrecedentOutline(paragraphs: seq<string>) returns (outline: PrecedentOutline)
    ensures outline == OutlineOf(paragraphs, IsAllCapsHeading, IsSectionHeading)
    ensures outline.title.Some? <==> |paragraphs| > 0 && IsAllCapsHeading(paragraphs[0])
    ensures forall i :: 0 <= i < |outline.sections| ==> IsSectionHeading(outline.sections[i].heading)
  {
    OutlineOfShape(paragraphs, IsAllCapsHeading, IsSectionHeading);
    outline := BuildOutline(paragraphs, IsAllCapsHeading, IsSectionHeading);
  }

  /** `load_precedent_outline`: the documents on disk are a map from path to
      their paragraphs; a missing path raises `FileNotFoundError`. */
  method LoadPrecedentOutline(path: string, documents: map<string, seq<string>>)
    returns (r: Result<PrecedentOutline>)
    ensures path !in documents <==> r.Failure?
    ensures r.Failure? ==> r.error == "Precedent not found: " + path
    ensures r.Success? ==> r.value == OutlineOf(documents[path], IsAllCapsHeading, IsSectionHeading)
  {
    if path !in documents {
      return Failure("Precedent not found: " + path);
    }
    var outline := BuildPrecedentOutline(documents[path]);
    return Success(outline);
  }
}
