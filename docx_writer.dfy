/** The DOCX export (`buildDocxBuffer`): every render line becomes a
    WordprocessingML paragraph whose runs are the line's placeholder
    segments, escaped for XML character data (section 2.4 of XML 1.0);
    the document part, the package relationships and the content types
    are stored in a three-entry ZIP archive.

    The ingest script reads such a file back by decoding the five
    predefined entities (section 4.6 of XML 1.0) in the text of each
    `<w:t>` element and joining the pieces; the round trip below shows
    that it recovers each line's text. */
module DocxWriter {
  import opened Strings
  import opened Bytes
  import CT = ContractText
  import IP = IngestPrecedents
  import Z = ZipWriter
  import Crc32

  // ---------------------------------------------------------------------
  // Escaping, then decoding
  // ---------------------------------------------------------------------

  /** The entity escaping a markup character is the first one the decoder
      finds at that position. */
  lemma EntityOfEscape(c: char, t: string)
    requires |CT.EscapeXmlChar(c)| > 1
    ensures IP.EntityAt(CT.EscapeXmlChar(c) + t) == Strings.Some((|CT.EscapeXmlChar(c)|, c))
  {
    var e := CT.EscapeXmlChar(c);
    var u := e + t;
    assert u[..|e|] == e;
    assert u[0] == '&' && u[1] == e[1] && u[2] == e[2] && u[3] == e[3];
    if c == '&' {
      assert u[..5] == "&amp;";
    } else if c == '<' {
      assert u[..4] == "&lt;";
    } else if c == '>' {
      assert u[..4] == "&gt;";
    } else if c == '"' {
      assert u[..6] == "&quot;";
    } else {
      assert u[4] == e[4];
      assert u[..6] == "&apos;";
    }
  }

  /** Decoding consumes the escape of one character and gives back that
      character. */
  lemma DecodeEscapedCons(c: char, t: string)
    ensures IP.DecodeXmlEntities(CT.EscapeXmlChar(c) + t) == [c] + IP.DecodeXmlEntities(t)
  {
    var e := CT.EscapeXmlChar(c);
    if |e| > 1 {
      EntityOfEscape(c, t);
      assert (e + t)[|e|..] == t;
    } else {
      IP.DecodePlain(c, t);
    }
  }

  /** `decodeXmlEntities(escapeXml(s)) == s`: the single left-to-right
      pass never reads an `&` it produced itself, and every escape the
      writer made is one of the five entities it decodes. */
  lemma {:induction false} DecodeEscapeXml(s: string)
    ensures IP.DecodeXmlEntities(CT.EscapeXml(s)) == s
    decreases |s|
  {
    if s == [] {
      assert CT.EscapeXml(s) == [];
    } else {
      CT.EscapeXmlCons(s[0], s[1..]);
      assert [s[0]] + s[1..] == s;
      DecodeEscapedCons(s[0], CT.EscapeXml(s[1..]));
      DecodeEscapeXml(s[1..]);
    }
  }

  /** Escaping a non-empty text gives a non-empty text. */
  lemma EscapeXmlNonEmpty(s: string)
    requires s != []
    ensures CT.EscapeXml(s) != []
  {
    CT.EscapeXmlCons(s[0], s[1..]);
    assert [s[0]] + s[1..] == s;
  }

  // ---------------------------------------------------------------------
  // Paragraphs (contract-export.util.ts:398-418)
  // ---------------------------------------------------------------------

  /** The font size, in half-points, of a line's runs. */
  function FontSize(style: CT.Style): (size: nat)
    ensures size == 28 <==> style == CT.HeadingStyle
    ensures size == 24 <==> style == CT.SubheadingStyle
    ensures size == 22 <==> style != CT.HeadingStyle && style != CT.SubheadingStyle
  {
    match style
    case HeadingStyle => 28
    case SubheadingStyle => 24
    case _ => 22
  }

  /** Headings and subheadings are bold throughout. */
  predicate BaseBold(style: CT.Style) {
    style == CT.HeadingStyle || style == CT.SubheadingStyle
  }

  /** One run: its properties, then the escaped text, whitespace kept. */
  function RunXml(seg: CT.Segment, size: nat, baseBold: bool): string {
    "<w:r><w:rPr>" + (if baseBold || seg.bold then "<w:b/>" else "")
      + "<w:sz w:val=\"" + NatToString(size) + "\"/></w:rPr><w:t xml:space=\"preserve\">"
      + CT.EscapeXml(seg.text) + "</w:t></w:r>"
  }

  /** `segments.map(…).join('')`. */
  function RunsXml(segs: seq<CT.Segment>, size: nat, baseBold: bool): string {
    if segs == [] then [] else RunXml(segs[0], size, baseBold) + RunsXml(segs[1..], size, baseBold)
  }

  /** The paragraph of one render line; a blank line is an empty
      paragraph. */
  function ParagraphXml(line: CT.RenderLine): (r: string)
    ensures Trim(line.text) == [] ==> r == "<w:p/>"
    ensures Trim(line.text) != [] ==> StartsWith(r, "<w:p>") && EndsWith(r, "</w:p>")
  {
    if Trim(line.text) == [] then "<w:p/>"
    else
      var r := "<w:p>" + RunsXml(CT.SplitPlaceholders(line.text), FontSize(line.style), BaseBold(line.style))
        + "</w:p>";
      assert r[..5] == "<w:p>";
      assert r[|r| - 6..] == "</w:p>";
      r
  }

  /** `paragraphs`: every render line's paragraph, joined without a
      separator. */
  function ParagraphsXml(lines: seq<CT.RenderLine>): string {
    if lines == [] then [] else ParagraphXml(lines[0]) + ParagraphsXml(lines[1..])
  }

  // ---------------------------------------------------------------------
  // What a reader of the text elements gets back
  // ---------------------------------------------------------------------

  /** The character data of the `<w:t>` element of each run. */
  function TextContents(segs: seq<CT.Segment>): (r: seq<string>)
    ensures |r| == |segs|
    ensures forall i :: 0 <= i < |segs| ==> r[i] == CT.EscapeXml(segs[i].text)
  {
    seq(|segs|, i requires 0 <= i < |segs| => CT.EscapeXml(segs[i].text))
  }

  /** `texts.push(decodeXmlEntities(raw))` for each text element, then
      `texts.join('')`, as the ingest script reads a paragraph. */
  function DecodedJoin(contents: seq<string>): string {
    if contents == [] then [] else IP.DecodeXmlEntities(contents[0]) + DecodedJoin(contents[1..])
  }

  lemma {:induction false} DecodedJoinTexts(segs: seq<CT.Segment>)
    ensures DecodedJoin(TextContents(segs)) == CT.Texts(segs)
    decreases |segs|
  {
    if segs != [] {
      assert TextContents(segs)[1..] == TextContents(segs[1..]);
      DecodeEscapeXml(segs[0].text);
      DecodedJoinTexts(segs[1..]);
    }
  }

  /** Each run of a line holds safe, non-empty character data (so a reader
      skips none of them and finds no markup inside), and decoding the runs
      in order and joining them gives back the line's text. */
  lemma ParagraphRoundTrip(text: string)
    ensures DecodedJoin(TextContents(CT.SplitPlaceholders(text))) == text
    ensures forall i :: 0 <= i < |CT.SplitPlaceholders(text)| ==>
      TextContents(CT.SplitPlaceholders(text))[i] != [] && CT.XmlSafe(TextContents(CT.SplitPlaceholders(text))[i])
  {
    var segs := CT.SplitPlaceholders(text);
    CT.SplitPlaceholdersShape(text);
    DecodedJoinTexts(segs);
    forall i | 0 <= i < |segs|
      ensures TextContents(segs)[i] != [] && CT.XmlSafe(TextContents(segs)[i])
    {
      EscapeXmlNonEmpty(segs[i].text);
      CT.EscapeXmlSafe(segs[i].text);
    }
  }

  // ---------------------------------------------------------------------
  // The package (contract-export.util.ts:398-447)
  // ---------------------------------------------------------------------

  const DocumentHead :=
    "<?xml version=\"1.0\" encoding=\"UTF-8\" standalone=\"yes\"?>\n"
    + "<w:document xmlns:w=\"http://schemas.openxmlformats.org/wordprocessingml/2006/main\">\n"
    + "  <w:body>\n    "

  /** A4 in twentieths of a point, one-inch margins. */
  const DocumentTail :=
    "\n    <w:sectPr>\n      <w:pgSz w:w=\"11906\" w:h=\"16838\"/>\n"
    + "      <w:pgMar w:top=\"1440\" w:right=\"1440\" w:bottom=\"1440\" w:left=\"1440\""
    + " w:header=\"720\" w:footer=\"720\" w:gutter=\"0\"/>\n"
    + "    </w:sectPr>\n  </w:body>\n</w:document>"

  const RelsXml :=
    "<?xml version=\"1.0\" encoding=\"UTF-8\"?>\n"
    + "<Relationships xmlns=\"http://schemas.openxmlformats.org/package/2006/relationships\">\n"
    + "  <Relationship Id=\"rId1\""
    + " Type=\"http://schemas.openxmlformats.org/officeDocument/2006/relationships/officeDocument\""
    + " Target=\"word/document.xml\"/>\n"
    + "</Relationships>"

  const ContentTypesXml :=
    "<?xml version=\"1.0\" encoding=\"UTF-8\"?>\n"
    + "<Types xmlns=\"http://schemas.openxmlformats.org/package/2006/content-types\">\n"
    + "  <Default Extension=\"rels\" ContentType=\"application/vnd.openxmlformats-package.relationships+xml\"/>\n"
    + "  <Default Extension=\"xml\" ContentType=\"application/xml\"/>\n"
    + "  <Override PartName=\"/word/document.xml\""
    + " ContentType=\"application/vnd.openxmlformats-officedocument.wordprocessingml.document.main+xml\"/>\n"
    + "</Types>"

  const ContentTypesName := "[Content_Types].xml"
  const RelsName := "_rels/.rels"
  const DocumentName := "word/document.xml"

  function DocumentXml(text: string): string {
    DocumentHead + ParagraphsXml(CT.RenderLines(text)) + DocumentTail
  }

  /** The three parts, in the order they are stored, from their encoded
      contents. */
  function Package(contentTypes: seq<byte>, rels: seq<byte>, document: seq<byte>): (es: seq<Z.Entry>)
    ensures |es| == 3
    ensures es[0].name == ContentTypesName && es[1].name == RelsName && es[2].name == DocumentName
    ensures es[0].data == contentTypes && es[1].data == rels && es[2].data == document
  {
    [Z.Entry(ContentTypesName, contentTypes), Z.Entry(RelsName, rels), Z.Entry(DocumentName, document)]
  }

  /** `buildDocxBuffer(text)`: the archive, or the RangeError its field
      writers throw. */
  function Docx(text: string): Result<seq<byte>> {
    Z.Zip(Package(Utf8(ContentTypesXml), Utf8(RelsXml), Utf8(DocumentXml(text))))
  }

  /** Paragraph by paragraph, as `renderLines.map(…).join('')`. */
  method BuildParagraphs(lines: seq<CT.RenderLine>) returns (xml: string)
    ensures xml == ParagraphsXml(lines)
  {
    xml := [];
    var k := |lines|;
    while k > 0
      invariant 0 <= k <= |lines|
      invariant xml == ParagraphsXml(lines[k..])
    {
      k := k - 1;
      assert lines[k..][1..] == lines[k + 1..];
      xml := ParagraphXml(lines[k]) + xml;
    }
  }

  /** `buildDocxBuffer`. */
  method BuildDocxBuffer(table: array<nat>, text: string) returns (r: Result<seq<byte>>)
    requires Crc32.IsTable(table)
    ensures r == Docx(text)
  {
    var renderLines := CT.BuildRenderLines(text);
    var paragraphs := BuildParagraphs(renderLines);
    var documentXml := DocumentHead + paragraphs + DocumentTail;
    r := Z.BuildZip(table, [
      Z.Entry(ContentTypesName, Utf8(ContentTypesXml)),
      Z.Entry(RelsName, Utf8(RelsXml)),
      Z.Entry(DocumentName, Utf8(documentXml))]);
  }

  // ---------------------------------------------------------------------
  // When the archive is written
  // ---------------------------------------------------------------------

  /** UTF-8 uses at most four bytes per character. */
  lemma {:induction false} Utf8Bound(s: string)
    ensures |Utf8(s)| <= 4 * |s|
    decreases |s|
  {
    if s != [] {
      Utf8Bound(s[1..]);
    }
  }

  /** Three entries with short names whose data total less than 2 GiB fit
      every field of the archive. */
  lemma ThreeFit(es: seq<Z.File>)
    requires |es| == 3
    requires forall i :: 0 <= i < 3 ==> |es[i].name| < 100
    requires |es[0].data| + |es[1].data| + |es[2].data| < 0x8000_0000
    ensures Z.Fits(es)
  {
    assert Z.Offset(es, 1) == Z.LocalSize(es[0]);
    assert Z.Offset(es, 2) == Z.LocalSize(es[0]) + Z.LocalSize(es[1]);
    assert Z.Offset(es, 3) == Z.LocalSize(es[0]) + Z.LocalSize(es[1]) + Z.LocalSize(es[2]);
    assert Z.CentralSize(es, 1) == 46 + |es[0].name|;
    assert Z.CentralSize(es, 2) == 92 + |es[0].name| + |es[1].name|;
    assert Z.CentralSize(es, 3) == 138 + |es[0].name| + |es[1].name| + |es[2].name|;
  }

  /** Three entries with short names whose data total less than 2 GiB
      are archived without error. */
  lemma ThreeSucceed(entries: seq<Z.Entry>)
    requires |entries| == 3
    requires |entries[0].name| < 25 && |entries[1].name| < 25 && |entries[2].name| < 25
    requires |entries[0].data| + |entries[1].data| + |entries[2].data| < 0x8000_0000
    ensures Z.Zip(entries).Success?
  {
    var es := Z.EncodeNames(entries);
    Utf8Bound(entries[0].name);
    Utf8Bound(entries[1].name);
    Utf8Bound(entries[2].name);
    ThreeFit(es);
    Z.ZipSucceedsIff(entries);
  }

  /** A package whose three parts total less than 2 GiB is archived
      without error: only a larger document makes a field writer throw.
      `Docx(text)` is this archive for the encoded parts of `text`. */
  lemma PackageSucceeds(contentTypes: seq<byte>, rels: seq<byte>, document: seq<byte>)
    requires |contentTypes| + |rels| + |document| < 0x8000_0000
    ensures Z.Zip(Package(contentTypes, rels, document)).Success?
  {
    ThreeSucceed(Package(contentTypes, rels, document));
  }
}
