/** The shapes a precedent outline takes on its way to the drafting service:
    the loosely typed record a lookup returns (every key optional) and the
    parsed outline the drafting loop works from (mlend/orchestrator.py:313-331). */
module Outlines {
  import opened Strings

  /** One section as a lookup returns it: `heading` and `body` may be missing. */
  datatype RawSection = RawSection(heading: Option<string>, body: Option<string>)

  /** An outline as a lookup returns it. */
  datatype RawOutline = RawOutline(
    title: Option<string>,
    frontMatter: Option<seq<string>>,
    sections: Option<seq<RawSection>>,
    placeholders: Option<seq<string>>)

  datatype Section = Section(heading: string, body: string)

  /** A section with a non-empty heading or body. */
  predicate HasContent(s: Section) { |s.heading| > 0 || |s.body| > 0 }

  datatype PrecedentOutline = PrecedentOutline(
    title: Option<string>,
    frontMatter: seq<string>,
    sections: seq<Section>,
    placeholders: seq<string>)

  /** `str(x or "")` for an optional string. */
  function OrEmpty(s: Option<string>): string {
    if s.Some? then s.value else ""
  }

  function OrEmptyList<T>(xs: Option<seq<T>>): seq<T> {
    if xs.Some? then xs.value else []
  }

  /** A raw section with its heading and body read as trimmed strings. */
  function ParseSection(s: RawSection): Section {
    Section(Trim(OrEmpty(s.heading)), Trim(OrEmpty(s.body)))
  }

  /** A raw section whose heading or body is not blank. */
  predicate IsKept(s: RawSection) { HasContent(ParseSection(s)) }

  /** The trimmed heading and body of each raw section, dropping those where
      both are blank. */
  function ParseSections(raw: seq<RawSection>): (r: seq<Section>)
    ensures |r| <= |raw|
    ensures forall i :: 0 <= i < |r| ==> HasContent(r[i])
  {
    if raw == [] then []
    else
      var heading, body := Trim(OrEmpty(raw[0].heading)), Trim(OrEmpty(raw[0].body));
      var rest := ParseSections(raw[1..]);
      if heading != [] || body != [] then
        var r := [Section(heading, body)] + rest;
        assert HasContent(r[0]);
        assert forall i :: 1 <= i < |r| ==> r[i] == rest[i - 1];
        r
      else rest
  }

  /** A raw section survives parsing exactly when its heading or body is
      non-blank; survivors keep their order. */
  lemma {:induction false} ParseSectionsKeeps(raw: seq<RawSection>)
    ensures ParseSections(raw) == [] <==>
            forall i :: 0 <= i < |raw| ==> IsBlank(OrEmpty(raw[i].heading)) && IsBlank(OrEmpty(raw[i].body))
  {
    if raw != [] {
      TrimEmptyIffBlank(OrEmpty(raw[0].heading));
      TrimEmptyIffBlank(OrEmpty(raw[0].body));
      ParseSectionsKeeps(raw[1..]);
      assert forall i :: 1 <= i < |raw| ==> raw[i] == raw[1..][i - 1];
    }
  }

  /** The parsed sections are exactly the `ParseSection` of each kept raw
      section, in order. */
  lemma {:induction false} ParseSectionsIsFilter(raw: seq<RawSection>)
    ensures ParseSections(raw) == Map(Filter(raw, IsKept), ParseSection)
  {
    if raw != [] {
      var s, rest := raw[0], raw[1..];
      ParseSectionsIsFilter(rest);
      var kept := Filter(rest, IsKept);
      assert Filter(raw, IsKept) == (if IsKept(s) then [s] else []) + kept;
      assert ParseSections(raw) == (if IsKept(s) then [ParseSection(s)] else []) + ParseSections(rest);
      if IsKept(s) {
        MapConcat([s], kept, ParseSection);
        assert Map([s], ParseSection) == [ParseSection(s)];
      }
    }
  }

  /** `_parse_precedent_outline` (orchestrator.py:313-331). */
  function ParsePrecedentOutline(raw: RawOutline): (r: PrecedentOutline)
    ensures r.title == raw.title
    ensures r.frontMatter == OrEmptyList(raw.frontMatter)
    ensures r.placeholders == OrEmptyList(raw.placeholders)
    ensures r.sections == Map(Filter(OrEmptyList(raw.sections), IsKept), ParseSection)
    ensures |r.sections| <= |OrEmptyList(raw.sections)|
    ensures forall i :: 0 <= i < |r.sections| ==> HasContent(r.sections[i])
  {
    ParseSectionsIsFilter(OrEmptyList(raw.sections));
    PrecedentOutline(raw.title, OrEmptyList(raw.frontMatter), ParseSections(OrEmptyList(raw.sections)),
                     OrEmptyList(raw.placeholders))
  }
}
