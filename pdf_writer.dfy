/** The hand-written PDF 1.4 writer behind the contract export
    (`buildPdfBuffer`): the render lines are cut into pages of 48 lines,
    each page gets a page object and a content stream that draws its lines
    with Helvetica (F1) and Helvetica-Bold (F2), and the file ends with a
    cross-reference table (ISO 32000-1 section 7.5.4) and a trailer
    (section 7.5.5).  Strings go through `Buffer.from(s, 'utf8')`; the
    cursor counts bytes. */
module PdfWriter {
  import opened Bytes
  import opened Strings
  import CT = ContractText

  type RenderLine = CT.RenderLine
  type Segment = CT.Segment

  /** floor((841.89 - 2 * 60) / 15): the lines that fit between the
      margins of an A4 page. */
  const LinesPerPage: nat := 48

  // ---------------------------------------------------------------------
  // Pages
  // ---------------------------------------------------------------------

  function CeilDiv(n: nat, d: nat): nat
    requires d > 0
  {
    (n + d - 1) / d
  }

  /** `renderLines.slice(48 * k, 48 * k + 48)`. */
  function PageOf(lines: seq<RenderLine>, k: nat): seq<RenderLine>
    requires k < CeilDiv(|lines|, LinesPerPage)
  {
    var hi := if LinesPerPage * (k + 1) <= |lines| then LinesPerPage * (k + 1) else |lines|;
    lines[LinesPerPage * k..hi]
  }

  function Paginate(lines: seq<RenderLine>): (pages: seq<seq<RenderLine>>)
    ensures |pages| == CeilDiv(|lines|, LinesPerPage)
  {
    seq(CeilDiv(|lines|, LinesPerPage), k requires 0 <= k < CeilDiv(|lines|, LinesPerPage) => PageOf(lines, k))
  }

  /** The page loop: a slice of 48 lines from every multiple of 48 below
      the number of lines. */
  method PaginateLines(lines: seq<RenderLine>) returns (pages: seq<seq<RenderLine>>)
    ensures pages == Paginate(lines)
  {
    pages := [];
    var i := 0;
    while i < |lines|
      invariant i == LinesPerPage * |pages|
      invariant |pages| <= CeilDiv(|lines|, LinesPerPage)
      invariant i < |lines| ==> |pages| < CeilDiv(|lines|, LinesPerPage)
      invariant i >= |lines| ==> |pages| == CeilDiv(|lines|, LinesPerPage)
      invariant forall k :: 0 <= k < |pages| ==> pages[k] == PageOf(lines, k)
      decreases |lines| - i
    {
      var hi := if i + LinesPerPage <= |lines| then i + LinesPerPage else |lines|;
      pages := pages + [lines[i..hi]];
      i := i + LinesPerPage;
    }
  }

  function Flatten(pages: seq<seq<RenderLine>>): seq<RenderLine> {
    if pages == [] then [] else Flatten(pages[..|pages| - 1]) + pages[|pages| - 1]
  }

  lemma {:induction false} FlattenPages(lines: seq<RenderLine>, k: nat)
    requires k <= CeilDiv(|lines|, LinesPerPage)
    ensures LinesPerPage * k <= |lines| + LinesPerPage - 1
    ensures Flatten(Paginate(lines)[..k])
      == lines[..if LinesPerPage * k <= |lines| then LinesPerPage * k else |lines|]
  {
    var pages := Paginate(lines);
    if k > 0 {
      FlattenPages(lines, k - 1);
      assert pages[..k][..k - 1] == pages[..k - 1];
    }
  }

  /** The pages hold the lines in order, none is empty and none holds more
      than 48 lines; there are ceil(n / 48) of them. */
  lemma PaginateProps(lines: seq<RenderLine>)
    ensures |Paginate(lines)| == CeilDiv(|lines|, LinesPerPage)
    ensures Flatten(Paginate(lines)) == lines
    ensures forall k :: 0 <= k < |Paginate(lines)| ==> 0 < |Paginate(lines)[k]| <= LinesPerPage
  {
    var pages := Paginate(lines);
    FlattenPages(lines, |pages|);
    assert pages[..|pages|] == pages;
  }

  /** `Math.max(pages.length, 1)`: an empty contract still gets a page. */
  function PageCount(pages: nat): (n: nat)
    ensures n >= 1 && n >= pages
    ensures pages >= 1 ==> n == pages
  {
    if pages >= 1 then pages else 1
  }

  /** `pages[idx] || [{ text: '', style: 'normal' }]`. */
  function PageLines(pages: seq<seq<RenderLine>>, k: nat): seq<RenderLine> {
    if k < |pages| then pages[k] else [CT.RenderLine([], CT.NormalStyle)]
  }

  // ---------------------------------------------------------------------
  // Content streams
  // ---------------------------------------------------------------------

  /** A content stream operator as the writer emits it: `Tf` selects a
      font and size, `Tj` shows a string, `T*` moves to the next line
      (ISO 32000-1 sections 9.3 and 9.4). */
  datatype Op = SetFont(font: string, size: nat) | Show(text: string) | NextLine

  function OpText(op: Op): string {
    match op
    case SetFont(f, s) => "/" + f + " " + NatToString(s) + " Tf"
    case Show(t) => "(" + CT.EscapePdfText(t) + ") Tj"
    case NextLine => "T*"
  }

  /** The operators so far and the font `setFont` remembers. */
  datatype Painter = Painter(ops: seq<Op>, font: string, size: nat)

  const Fresh := Painter([], "", 0)

  /** `setFont`: emits `Tf` only when the font or the size changes. */
  function UseFont(p: Painter, font: string, size: nat): (q: Painter)
    ensures q.font == font && q.size == size
    ensures q.ops == p.ops || q.ops == p.ops + [SetFont(font, size)]
  {
    if font == p.font && size == p.size then p else Painter(p.ops + [SetFont(font, size)], font, size)
  }

  function BaseFont(style: CT.Style): string {
    if style == CT.HeadingStyle || style == CT.SubheadingStyle then "F2" else "F1"
  }

  function BaseSize(style: CT.Style): nat {
    if style == CT.HeadingStyle then 14 else if style == CT.SubheadingStyle then 12 else 11
  }

  function SegmentFont(seg: Segment, base: string): string {
    if seg.bold then "F2" else base
  }

  function ShowSegment(p: Painter, seg: Segment, base: string, size: nat): Painter {
    var q := UseFont(p, SegmentFont(seg, base), size);
    Painter(q.ops + [Show(seg.text)], q.font, q.size)
  }

  function ShowSegments(p: Painter, segs: seq<Segment>, base: string, size: nat): Painter {
    if segs == [] then p
    else ShowSegment(ShowSegments(p, segs[..|segs| - 1], base, size), segs[|segs| - 1], base, size)
  }

  /** One render line: `T*` alone for an empty line, otherwise its
      segments in the line's font, placeholders in bold, then `T*`. */
  function DrawLine(p: Painter, line: RenderLine): Painter {
    if line.text == [] then Painter(p.ops + [NextLine], p.font, p.size)
    else
      var base := BaseFont(line.style);
      var size := BaseSize(line.style);
      var q := ShowSegments(UseFont(p, base, size), CT.SplitPlaceholders(line.text), base, size);
      Painter(q.ops + [NextLine], q.font, q.size)
  }

  function DrawLines(p: Painter, lines: seq<RenderLine>): Painter {
    if lines == [] then p else DrawLine(DrawLines(p, lines[..|lines| - 1]), lines[|lines| - 1])
  }

  function Render(ops: seq<Op>): (r: seq<string>)
    ensures |r| == |ops|
    ensures forall i :: 0 <= i < |ops| ==> r[i] == OpText(ops[i])
  {
    seq(|ops|, i requires 0 <= i < |ops| => OpText(ops[i]))
  }

  const TextOrigin := "54 781.89 Td"
  const Leading := "15 TL"
  const Opening: seq<string> := ["BT", TextOrigin, Leading]

  /** The content stream of one page. */
  function PageStream(lines: seq<RenderLine>): string {
    Join(Opening + Render(DrawLines(Fresh, lines).ops) + ["ET"], "\n")
  }

  /** `setFont` on the content parts of the page being drawn. */
  method SetFontStep(parts: seq<string>, currentFont: string, currentSize: nat, font: string, size: nat,
                     ghost p: Painter)
    returns (parts': seq<string>, font': string, size': nat)
    requires parts == Opening + Render(p.ops) && currentFont == p.font && currentSize == p.size
    ensures parts' == Opening + Render(UseFont(p, font, size).ops)
    ensures font' == font && size' == size
  {
    parts', font', size' := parts, currentFont, currentSize;
    if font == currentFont && size == currentSize {
      return;
    }
    font', size' := font, size;
    parts' := parts + [OpText(SetFont(font, size))];
    assert Render(p.ops + [SetFont(font, size)]) == Render(p.ops) + [OpText(SetFont(font, size))];
  }

  /** The segments of one line, each in its font, as the
      `segments.forEach` callback draws them. */
  method ShowSegmentsStep(parts: seq<string>, currentFont: string, currentSize: nat,
                          segments: seq<Segment>, base: string, size: nat, ghost p: Painter)
    returns (parts': seq<string>, font': string, size': nat)
    requires parts == Opening + Render(p.ops) && currentFont == p.font && currentSize == p.size
    ensures parts' == Opening + Render(ShowSegments(p, segments, base, size).ops)
    ensures font' == ShowSegments(p, segments, base, size).font
    ensures size' == ShowSegments(p, segments, base, size).size
  {
    parts', font', size' := parts, currentFont, currentSize;
    ghost var q := p;
    for j := 0 to |segments|
      invariant q == ShowSegments(p, segments[..j], base, size)
      invariant parts' == Opening + Render(q.ops)
      invariant font' == q.font && size' == q.size
    {
      var segment := segments[j];
      assert segments[..j + 1][..j] == segments[..j];
      var font := if segment.bold then "F2" else base;
      parts', font', size' := SetFontStep(parts', font', size', font, size, q);
      ghost var r := UseFont(q, font, size);
      assert Render(r.ops + [Show(segment.text)]) == Render(r.ops) + [OpText(Show(segment.text))];
      parts' := parts' + ["(" + CT.EscapePdfText(segment.text) + ") Tj"];
      q := ShowSegment(q, segment, base, size);
    }
    assert segments[..|segments|] == segments;
  }

  /** One line, as the `pageLines.forEach` callback draws it. */
  method DrawLineStep(parts: seq<string>, currentFont: string, currentSize: nat, line: RenderLine,
                      ghost p: Painter)
    returns (parts': seq<string>, font': string, size': nat)
    requires parts == Opening + Render(p.ops) && currentFont == p.font && currentSize == p.size
    ensures parts' == Opening + Render(DrawLine(p, line).ops)
    ensures font' == DrawLine(p, line).font && size' == DrawLine(p, line).size
  {
    if line.text == [] {
      assert Render(p.ops + [NextLine]) == Render(p.ops) + ["T*"];
      return parts + ["T*"], currentFont, currentSize;
    }
    var base := BaseFont(line.style);
    var size := BaseSize(line.style);
    parts', font', size' := SetFontStep(parts, currentFont, currentSize, base, size, p);
    var segments := CT.SplitPlaceholders(line.text);
    parts', font', size' := ShowSegmentsStep(parts', font', size', segments, base, size, UseFont(p, base, size));
    ghost var q := ShowSegments(UseFont(p, base, size), segments, base, size);
    assert Render(q.ops + [NextLine]) == Render(q.ops) + ["T*"];
    parts' := parts' + ["T*"];
  }

  /** The content stream of one page. */
  method ContentStream(lines: seq<RenderLine>) returns (stream: string)
    ensures stream == PageStream(lines)
  {
    var parts := Opening;
    var currentFont, currentSize := "", 0;
    ghost var p := Fresh;
    for i := 0 to |lines|
      invariant p == DrawLines(Fresh, lines[..i])
      invariant parts == Opening + Render(p.ops)
      invariant currentFont == p.font && currentSize == p.size
    {
      assert lines[..i + 1][..i] == lines[..i];
      parts, currentFont, currentSize := DrawLineStep(parts, currentFont, currentSize, lines[i], p);
      p := DrawLine(p, lines[i]);
    }
    assert lines[..|lines|] == lines;
    parts := parts + ["ET"];
    stream := Join(parts, "\n");
  }

  // ---------------------------------------------------------------------
  // What a content stream draws
  // ---------------------------------------------------------------------

  /** The number of `T*` operators. */
  function LineBreaks(ops: seq<Op>): nat {
    if ops == [] then 0 else LineBreaks(ops[..|ops| - 1]) + (if ops[|ops| - 1] == NextLine then 1 else 0)
  }

  /** The strings the `Tj` operators show, one after another. */
  function Shown(ops: seq<Op>): string {
    if ops == [] then [] else Shown(ops[..|ops| - 1]) + (if ops[|ops| - 1].Show? then ops[|ops| - 1].text else [])
  }

  /** The font and size the latest `Tf` selected; none yet is ("", 0), the
      state `setFont` starts each page in. */
  function LastFont(ops: seq<Op>): (string, nat) {
    if ops == [] then ("", 0)
    else if ops[|ops| - 1].SetFont? then (ops[|ops| - 1].font, ops[|ops| - 1].size)
    else LastFont(ops[..|ops| - 1])
  }

  /** The font `setFont` remembers is the one the stream has selected, so
      skipping a `Tf` for an unchanged font never shows text in a wrong one. */
  predicate Tracks(p: Painter) {
    LastFont(p.ops) == (p.font, p.size)
  }

  /** The texts of the lines, one after another. */
  function LinesText(lines: seq<RenderLine>): string {
    if lines == [] then [] else LinesText(lines[..|lines| - 1]) + lines[|lines| - 1].text
  }

  lemma Snoc(ops: seq<Op>, op: Op)
    ensures (ops + [op])[..|ops|] == ops
    ensures LineBreaks(ops + [op]) == LineBreaks(ops) + (if op == NextLine then 1 else 0)
    ensures Shown(ops + [op]) == Shown(ops) + (if op.Show? then op.text else [])
    ensures LastFont(ops + [op]) == if op.SetFont? then (op.font, op.size) else LastFont(ops)
  {
    assert (ops + [op])[..|ops|] == ops;
  }

  lemma UseFontProps(p: Painter, font: string, size: nat)
    requires Tracks(p)
    ensures Tracks(UseFont(p, font, size))
    ensures LastFont(UseFont(p, font, size).ops) == (font, size)
    ensures LineBreaks(UseFont(p, font, size).ops) == LineBreaks(p.ops)
    ensures Shown(UseFont(p, font, size).ops) == Shown(p.ops)
  {
    if !(font == p.font && size == p.size) {
      Snoc(p.ops, SetFont(font, size));
    }
  }

  /** A segment is shown right after the latest `Tf` selected F2 for a
      placeholder and the line's font otherwise, at the line's size. */
  lemma ShowSegmentProps(p: Painter, seg: Segment, base: string, size: nat)
    requires Tracks(p)
    ensures var r := ShowSegment(p, seg, base, size);
      && Tracks(r)
      && |r.ops| > 0 && r.ops[|r.ops| - 1] == Show(seg.text)
      && LastFont(r.ops[..|r.ops| - 1]) == (SegmentFont(seg, base), size)
      && LineBreaks(r.ops) == LineBreaks(p.ops)
      && Shown(r.ops) == Shown(p.ops) + seg.text
  {
    var q := UseFont(p, SegmentFont(seg, base), size);
    UseFontProps(p, SegmentFont(seg, base), size);
    Snoc(q.ops, Show(seg.text));
  }

  lemma {:induction false} ShowSegmentsProps(p: Painter, segs: seq<Segment>, base: string, size: nat)
    requires Tracks(p)
    ensures Tracks(ShowSegments(p, segs, base, size))
    ensures LineBreaks(ShowSegments(p, segs, base, size).ops) == LineBreaks(p.ops)
    ensures Shown(ShowSegments(p, segs, base, size).ops) == Shown(p.ops) + CT.Texts(segs)
  {
    if segs != [] {
      var init, last := segs[..|segs| - 1], segs[|segs| - 1];
      assert init + [last] == segs;
      CT.TextsAppend(init, [last]);
      var q := ShowSegments(p, init, base, size);
      assert ShowSegments(p, segs, base, size) == ShowSegment(q, last, base, size);
      ShowSegmentsProps(p, init, base, size);
      ShowSegmentProps(q, last, base, size);
      assert CT.Texts([last]) == last.text;
      AppendAssoc(Shown(p.ops), CT.Texts(init), last.text);
    }
  }

  lemma DrawLineProps(p: Painter, line: RenderLine)
    requires Tracks(p)
    ensures Tracks(DrawLine(p, line))
    ensures LineBreaks(DrawLine(p, line).ops) == LineBreaks(p.ops) + 1
    ensures Shown(DrawLine(p, line).ops) == Shown(p.ops) + line.text
  {
    if line.text == [] {
      Snoc(p.ops, NextLine);
    } else {
      var base := BaseFont(line.style);
      var size := BaseSize(line.style);
      var segs := CT.SplitPlaceholders(line.text);
      UseFontProps(p, base, size);
      ShowSegmentsProps(UseFont(p, base, size), segs, base, size);
      CT.SplitPlaceholdersShape(line.text);
      Snoc(ShowSegments(UseFont(p, base, size), segs, base, size).ops, NextLine);
    }
  }

  /** A page's stream moves down one line per render line, shows exactly
      the lines' text in order, and the font `setFont` remembers is always
      the one selected. */
  lemma {:induction false} DrawLinesProps(lines: seq<RenderLine>)
    ensures Tracks(DrawLines(Fresh, lines))
    ensures LineBreaks(DrawLines(Fresh, lines).ops) == |lines|
    ensures Shown(DrawLines(Fresh, lines).ops) == LinesText(lines)
  {
    if lines != [] {
      DrawLinesProps(lines[..|lines| - 1]);
      DrawLineProps(DrawLines(Fresh, lines[..|lines| - 1]), lines[|lines| - 1]);
    }
  }

  // ---------------------------------------------------------------------
  // Objects
  // ---------------------------------------------------------------------

  const Header := "%PDF-1.4\n"
  const CatalogBody := "<< /Type /Catalog /Pages 2 0 R >>"
  const FontBody := "<< /Type /Font /Subtype /Type1 /BaseFont /Helvetica >>"
  const BoldFontBody := "<< /Type /Font /Subtype /Type1 /BaseFont /Helvetica-Bold >>"
  /** The A4 page box, 595.28 by 841.89 points. */
  const MediaBox := "[0 0 595.28 841.89]"

  /** An indirect reference (ISO 32000-1 section 7.3.10). */
  function Ref(id: nat): string {
    NatToString(id) + " 0 R"
  }

  /** The page objects are numbered from 3. */
  function Kids(pageCount: nat): (r: seq<string>)
    ensures |r| == pageCount
  {
    seq(pageCount, k requires 0 <= k < pageCount => Ref(3 + k))
  }

  function PagesBody(pageCount: nat): string {
    "<< /Type /Pages /Count " + NatToString(pageCount) + " /Kids [" + Join(Kids(pageCount), " ") + "] >>"
  }

  /** Page `k`: fonts 3 + n and 4 + n, contents 5 + n + k, for n pages. */
  function PageBody(pageCount: nat, k: nat): string {
    "<< /Type /Page /Parent 2 0 R /MediaBox " + MediaBox + " /Resources << /Font << /F1 " + Ref(3 + pageCount)
      + " /F2 " + Ref(4 + pageCount) + " >> >> /Contents " + Ref(5 + pageCount + k) + " >>"
  }

  function LengthPrefix(length: nat): string {
    "<< /Length " + NatToString(length) + " >>\nstream\n"
  }

  /** A stream object's dictionary and data (ISO 32000-1 section 7.3.8):
      `/Length` is the byte length of the UTF-8 encoded stream. */
  function ContentBody(stream: string): string {
    LengthPrefix(|Utf8(stream)|) + stream + "\nendstream"
  }

  /** The content stream of every page; a text without lines still makes
      one page. */
  function Streams(pages: seq<seq<RenderLine>>): (streams: seq<string>)
    ensures |streams| == PageCount(|pages|)
  {
    seq(PageCount(|pages|), k requires 0 <= k < PageCount(|pages|) => PageStream(PageLines(pages, k)))
  }

  /** The bodies of objects 1, 2, ...: catalog, page tree, one page per
      content stream, the two fonts and the content streams. */
  function Bodies(streams: seq<string>): (bodies: seq<string>)
    ensures |bodies| == 4 + 2 * |streams|
  {
    var n := |streams|;
    [CatalogBody, PagesBody(n)]
      + seq(n, k requires 0 <= k < n => PageBody(n, k))
      + [FontBody, BoldFontBody]
      + seq(n, k requires 0 <= k < n => ContentBody(streams[k]))
  }

  lemma BodiesFrame(streams: seq<string>)
    ensures Bodies(streams)[0] == CatalogBody
    ensures Bodies(streams)[1] == PagesBody(|streams|)
    ensures Bodies(streams)[2 + |streams|] == FontBody
    ensures Bodies(streams)[3 + |streams|] == BoldFontBody
  {
  }

  lemma BodiesPages(streams: seq<string>)
    ensures forall k :: 0 <= k < |streams| ==> Bodies(streams)[2 + k] == PageBody(|streams|, k)
  {
  }

  lemma BodiesContents(streams: seq<string>)
    ensures forall k :: 0 <= k < |streams| ==> Bodies(streams)[4 + |streams| + k] == ContentBody(streams[k])
  {
  }

  /** "id 0 obj", the line that opens an indirect object (section 7.3.10). */
  function ObjectTag(id: nat): string {
    NatToString(id) + " 0 obj"
  }

  function ObjectText(id: nat, body: string): string {
    ObjectTag(id) + "\n" + body + "\nendobj\n"
  }

  /** The encoded objects, object `k + 1` at index `k`. */
  function Chunks(bodies: seq<string>): (chunks: seq<seq<byte>>)
    ensures |chunks| == |bodies|
  {
    if bodies == [] then [] else Chunks(bodies[..|bodies| - 1]) + [Utf8(ObjectText(|bodies|, bodies[|bodies| - 1]))]
  }

  lemma {:induction false} ChunkAt(bodies: seq<string>, k: nat)
    requires k < |bodies|
    ensures Chunks(bodies)[k] == Utf8(ObjectText(k + 1, bodies[k]))
  {
    if k < |bodies| - 1 {
      ChunkAt(bodies[..|bodies| - 1], k);
    }
  }

  /** The first `n` chunks, one after another. */
  function Run(chunks: seq<seq<byte>>, n: nat): seq<byte>
    requires n <= |chunks|
  {
    if n == 0 then [] else Run(chunks, n - 1) + chunks[n - 1]
  }

  const HeaderSize: nat := 9

  /** Where object `id` starts: after the header and the objects before it. */
  function ObjectOffset(chunks: seq<seq<byte>>, id: nat): nat
    requires 1 <= id <= |chunks|
  {
    HeaderSize + |Run(chunks, id - 1)|
  }

  /** The `offsets` array; index 0 is a hole, read as `offsets[0] || 0`. */
  function Offsets(chunks: seq<seq<byte>>): (offsets: seq<nat>)
    ensures |offsets| == |chunks| + 1
    ensures offsets[0] == 0
    ensures forall id :: 1 <= id <= |chunks| ==> offsets[id] == ObjectOffset(chunks, id)
  {
    [0] + seq(|chunks|, k requires 0 <= k < |chunks| => ObjectOffset(chunks, k + 1))
  }

  /** The same as the map `addObject` fills, for the first `n` objects. */
  function OffsetMap(chunks: seq<seq<byte>>, n: nat): map<nat, nat>
    requires n <= |chunks|
  {
    map id | 1 <= id <= n :: ObjectOffset(chunks, id)
  }

  // ---------------------------------------------------------------------
  // Cross-reference table and trailer
  // ---------------------------------------------------------------------

  function XrefHead(size: nat): string {
    "xref" + "\n0 " + NatToString(size) + "\n"
  }

  const FreeEntry := "0000000000 65535 f \n"

  /** An in-use entry: the offset as ten digits, generation 0, `n`. */
  function XrefEntry(offset: nat): string {
    PadStartZero(NatToString(offset), 10) + " 00000 n \n"
  }

  /** The encoded entry of an object at `offset`. */
  function EntryBytes(offset: nat): seq<byte> {
    Utf8(XrefEntry(offset))
  }

  /** The entries of objects 1 .. n - 1. */
  function Entries(offsets: seq<nat>, n: nat): seq<byte>
    requires n <= |offsets|
  {
    if n <= 1 then [] else Entries(offsets, n - 1) + EntryBytes(offsets[n - 1])
  }

  /** The encoded `xref` line, subsection line and free entry. */
  function XrefPrelude(size: nat): seq<byte> {
    Utf8(XrefHead(size) + FreeEntry)
  }

  /** The in-use entries, one per object. */
  function Table(offsets: seq<nat>): seq<byte> {
    Entries(offsets, |offsets|)
  }

  function XrefSection(offsets: seq<nat>): seq<byte> {
    XrefPrelude(|offsets|) + Table(offsets)
  }

  function TrailerHead(size: nat): string {
    "trailer\n<< /Size " + NatToString(size) + " /Root 1 0 R >>\nstartxref\n"
  }

  function StartXref(start: nat): string {
    NatToString(start) + "\n%%EOF"
  }

  /** The encoded trailer: the trailer dictionary, `startxref`, the
      position of the table and `%%EOF`. */
  function TrailerBytes(size: nat, start: nat): seq<byte> {
    Utf8(TrailerHead(size) + StartXref(start))
  }

  function Objects(chunks: seq<seq<byte>>): seq<byte> {
    HeaderBytes + Run(chunks, |chunks|)
  }

  /** The file made of the given encoded objects: header and objects, the
      cross-reference table, and the trailer pointing back at the table. */
  function Layout(chunks: seq<seq<byte>>): seq<byte> {
    var offsets := Offsets(chunks);
    Objects(chunks) + XrefSection(offsets) + TrailerBytes(|offsets|, |Objects(chunks)|)
  }

  /** The file for the given pages. */
  function Document(pages: seq<seq<RenderLine>>): seq<byte> {
    Layout(Chunks(Bodies(Streams(pages))))
  }

  /** `buildPdfBuffer(text)`. */
  function Pdf(text: string): seq<byte> {
    Document(Paginate(CT.RenderLines(text)))
  }

  // ---------------------------------------------------------------------
  // The writer
  // ---------------------------------------------------------------------

  /** The writer's state: the buffers pushed so far, as one byte sequence,
      the byte `cursor`, and the `offsets` array as a map from object
      number to position together with its JavaScript `length`. */
  class Sink {
    var bytes: seq<byte>
    var cursor: nat
    var offsets: map<nat, nat>
    var length: nat

    predicate Valid()
      reads this
    {
      cursor == |bytes| && forall id :: id in offsets ==> id < length
    }

    constructor()
      ensures Valid() && bytes == [] && offsets == map[] && length == 0
    {
      bytes, cursor, offsets, length := [], 0, map[], 0;
    }

    /** `push`: the UTF-8 bytes of `chunk` go after the others and the
        cursor moves past them. */
    method Push(chunk: string)
      requires Valid()
      modifies this
      ensures Valid()
      ensures bytes == old(bytes) + Utf8(chunk)
      ensures offsets == old(offsets) && length == old(length)
    {
      var buf := Utf8(chunk);
      bytes := bytes + buf;
      cursor := cursor + |buf|;
    }

    /** `addObject`: records where object `id` starts, then writes it. */
    method AddObject(id: nat, body: string)
      requires Valid()
      modifies this
      ensures Valid()
      ensures offsets == old(offsets)[id := old(cursor)]
      ensures length == if id < old(length) then old(length) else id + 1
      ensures bytes == old(bytes) + Utf8(ObjectText(id, body))
    {
      offsets := offsets[id := cursor];
      if id >= length {
        length := id + 1;
      }
      Push(ObjectText(id, body));
    }
  }

  /** The encoding of `Header`, written out. */
  const HeaderBytes: seq<byte> := [0x25, 0x50, 0x44, 0x46, 0x2D, 0x31, 0x2E, 0x34, 0x0A]

  lemma HeaderEncoding()
    ensures Utf8(Header) == HeaderBytes && |HeaderBytes| == HeaderSize
  {
  }

  /** The writer has written a header of `HeaderSize` bytes and objects
      1 .. n. */
  predicate Wrote(sink: Sink, head: seq<byte>, chunks: seq<seq<byte>>, n: nat)
    reads sink
  {
    && sink.Valid()
    && n <= |chunks|
    && |head| == HeaderSize
    && sink.bytes == head + Run(chunks, n)
    && sink.offsets == OffsetMap(chunks, n)
    && sink.length == (if n == 0 then 0 else n + 1)
  }

  lemma OffsetMapStep(chunks: seq<seq<byte>>, n: nat)
    requires n < |chunks|
    ensures OffsetMap(chunks, n)[n + 1 := HeaderSize + |Run(chunks, n)|] == OffsetMap(chunks, n + 1)
  {
    assert ObjectOffset(chunks, n + 1) == HeaderSize + |Run(chunks, n)|;
  }

  /** Adds object `n + 1`, whose body is `bodies[n]`, after objects
      1 .. n. */
  method AddNext(sink: Sink, id: nat, body: string, ghost head: seq<byte>, ghost chunks: seq<seq<byte>>, ghost n: nat)
    requires Wrote(sink, head, chunks, n)
    requires n < |chunks| && chunks[n] == Utf8(ObjectText(id, body)) && id == n + 1
    modifies sink
    ensures Wrote(sink, head, chunks, n + 1)
  {
    OffsetMapStep(chunks, n);
    AppendAssoc(head, Run(chunks, n), chunks[n]);
    sink.AddObject(id, body);
  }

  /** Objects 1 and 2: the catalog and the page tree. */
  method WriteCatalog(sink: Sink, pageCount: nat, ghost head: seq<byte>, ghost bodies: seq<string>)
    requires 2 <= |bodies| && bodies[0] == CatalogBody && bodies[1] == PagesBody(pageCount)
    requires Wrote(sink, head, Chunks(bodies), 0)
    modifies sink
    ensures Wrote(sink, head, Chunks(bodies), 2)
  {
    ChunkAt(bodies, 0);
    AddNext(sink, 1, CatalogBody, head, Chunks(bodies), 0);
    ChunkAt(bodies, 1);
    AddNext(sink, 2, PagesBody(pageCount), head, Chunks(bodies), 1);
  }

  /** Objects 3 .. 2 + n: the pages. */
  method WritePages(sink: Sink, pageCount: nat, ghost head: seq<byte>, ghost bodies: seq<string>)
    requires 2 + pageCount <= |bodies|
    requires forall k :: 0 <= k < pageCount ==> bodies[2 + k] == PageBody(pageCount, k)
    requires Wrote(sink, head, Chunks(bodies), 2)
    modifies sink
    ensures Wrote(sink, head, Chunks(bodies), 2 + pageCount)
  {
    ghost var chunks := Chunks(bodies);
    for idx := 0 to pageCount
      invariant Wrote(sink, head, chunks, 2 + idx)
    {
      ChunkAt(bodies, 2 + idx);
      AddNext(sink, 3 + idx, PageBody(pageCount, idx), head, chunks, 2 + idx);
    }
  }

  /** Objects 3 + n and 4 + n: the regular and the bold font. */
  method WriteFonts(sink: Sink, pageCount: nat, ghost head: seq<byte>, ghost bodies: seq<string>)
    requires 4 + pageCount <= |bodies| && bodies[2 + pageCount] == FontBody && bodies[3 + pageCount] == BoldFontBody
    requires Wrote(sink, head, Chunks(bodies), 2 + pageCount)
    modifies sink
    ensures Wrote(sink, head, Chunks(bodies), 4 + pageCount)
  {
    var fontId := 3 + pageCount;
    var boldFontId := fontId + 1;
    ChunkAt(bodies, 2 + pageCount);
    AddNext(sink, fontId, FontBody, head, Chunks(bodies), 2 + pageCount);
    ChunkAt(bodies, 3 + pageCount);
    AddNext(sink, boldFontId, BoldFontBody, head, Chunks(bodies), 3 + pageCount);
  }

  /** The content stream of every page, in page order. */
  method PageStreams(pages: seq<seq<RenderLine>>) returns (streams: seq<string>)
    ensures streams == Streams(pages)
  {
    var pageCount := if |pages| > 1 then |pages| else 1;
    streams := [];
    for idx := 0 to pageCount
      invariant |streams| == idx
      invariant forall k :: 0 <= k < idx ==> streams[k] == PageStream(PageLines(pages, k))
    {
      var pageLines := if idx < |pages| then pages[idx] else [CT.RenderLine([], CT.NormalStyle)];
      assert pageLines == PageLines(pages, idx);
      var stream := ContentStream(pageLines);
      streams := streams + [stream];
    }
  }

  /** Objects 5 + n .. 4 + 2n: the content streams, one per page. */
  method WriteContents(sink: Sink, pageCount: nat, streams: seq<string>, ghost head: seq<byte>,
    ghost bodies: seq<string>)
    requires pageCount == |streams| && |bodies| == 4 + 2 * pageCount
    requires forall k :: 0 <= k < pageCount ==> bodies[4 + pageCount + k] == ContentBody(streams[k])
    requires Wrote(sink, head, Chunks(bodies), 4 + pageCount)
    modifies sink
    ensures Wrote(sink, head, Chunks(bodies), |bodies|)
  {
    var boldFontId := 4 + pageCount;
    for idx := 0 to pageCount
      invariant Wrote(sink, head, Chunks(bodies), 4 + pageCount + idx)
    {
      ChunkAt(bodies, 4 + pageCount + idx);
      AddNext(sink, boldFontId + 1 + idx, ContentBody(streams[idx]), head, Chunks(bodies), 4 + pageCount + idx);
    }
  }

  /** One in-use entry of the cross-reference table. */
  method WriteEntry(sink: Sink, i: nat, ghost offsets: seq<nat>)
    requires sink.Valid() && i < |offsets|
    requires i in sink.offsets && sink.offsets[i] == offsets[i]
    modifies sink
    ensures sink.Valid() && sink.offsets == old(sink.offsets) && sink.length == old(sink.length)
    ensures sink.bytes == old(sink.bytes) + EntryBytes(offsets[i])
  {
    var offset := if i in sink.offsets then sink.offsets[i] else 0;
    sink.Push(XrefEntry(offset));
  }

  /** The in-use entries of the cross-reference table, one per object,
      each read from the `offsets` the objects left behind. */
  method WriteEntries(sink: Sink, ghost offsets: seq<nat>)
    requires sink.Valid() && sink.length == |offsets| && |offsets| >= 1
    requires forall id :: 1 <= id < |offsets| ==> id in sink.offsets && sink.offsets[id] == offsets[id]
    modifies sink
    ensures sink.Valid() && sink.offsets == old(sink.offsets) && sink.length == old(sink.length)
    ensures sink.bytes == old(sink.bytes) + Entries(offsets, |offsets|)
  {
    ghost var start := sink.bytes;
    var size := sink.length;
    for i := 1 to size
      invariant sink.Valid() && sink.offsets == old(sink.offsets) && sink.length == size
      invariant sink.bytes == start + Entries(offsets, i)
    {
      AppendAssoc(start, Entries(offsets, i), EntryBytes(offsets[i]));
      WriteEntry(sink, i, offsets);
    }
  }

  /** Every slot of the `offsets` array but the first is an object's
      recorded position. */
  lemma OffsetsRecorded(chunks: seq<seq<byte>>)
    ensures forall id :: 1 <= id < |Offsets(chunks)| ==>
      id in OffsetMap(chunks, |chunks|) && OffsetMap(chunks, |chunks|)[id] == Offsets(chunks)[id]
  {
  }

  /** The cross-reference table, one entry per slot of `offsets`, and the
      trailer pointing back at it. */
  method WriteXref(sink: Sink, ghost chunks: seq<seq<byte>>)
    requires Wrote(sink, HeaderBytes, chunks, |chunks|) && |chunks| >= 1
    modifies sink
    ensures sink.bytes == Layout(chunks)
  {
    ghost var offsets := Offsets(chunks);
    var xrefStart := sink.cursor;
    var size := sink.length;
    sink.Push(XrefHead(size));
    sink.Push(FreeEntry);
    Utf8Append(XrefHead(size), FreeEntry);
    OffsetsRecorded(chunks);
    WriteEntries(sink, offsets);
    AppendAssoc(Objects(chunks), Utf8(XrefHead(size)), Utf8(FreeEntry));
    AppendAssoc(Objects(chunks), XrefPrelude(size), Table(offsets));
    sink.Push(TrailerHead(size) + StartXref(xrefStart));
  }

  /** Objects 1 .. 4 + 2n, in the order `buildPdfBuffer` adds them. */
  method WriteObjects(sink: Sink, streams: seq<string>, ghost head: seq<byte>)
    requires |streams| >= 1
    requires Wrote(sink, head, Chunks(Bodies(streams)), 0)
    modifies sink
    ensures Wrote(sink, head, Chunks(Bodies(streams)), |Bodies(streams)|)
  {
    ghost var bodies := Bodies(streams);
    var pageCount := |streams|;
    BodiesFrame(streams);
    WriteCatalog(sink, pageCount, head, bodies);
    BodiesPages(streams);
    WritePages(sink, pageCount, head, bodies);
    WriteFonts(sink, pageCount, head, bodies);
    BodiesContents(streams);
    WriteContents(sink, pageCount, streams, head, bodies);
  }

  /** The body of `buildPdfBuffer` after pagination: header, objects,
      cross-reference table and trailer, into an empty writer. */
  method WriteDocument(sink: Sink, streams: seq<string>)
    requires |streams| >= 1
    requires sink.Valid() && sink.bytes == [] && sink.offsets == map[] && sink.length == 0
    modifies sink
    ensures sink.bytes == Layout(Chunks(Bodies(streams)))
  {
    sink.Push(Header);
    HeaderEncoding();
    WriteObjects(sink, streams, HeaderBytes);
    WriteXref(sink, Chunks(Bodies(streams)));
  }

  /** `buildPdfBuffer`: the text's render lines, in pages, as a PDF file. */
  method BuildPdfBuffer(text: string) returns (pdf: seq<byte>)
    ensures pdf == Pdf(text)
  {
    var renderLines := CT.BuildRenderLines(text);
    var pages := PaginateLines(renderLines);
    var streams := PageStreams(pages);
    var sink := new Sink();
    WriteDocument(sink, streams);
    pdf := sink.bytes;
  }
}
