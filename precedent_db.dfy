/** Reading a precedent outline back from the database (mlend/precedent_db.py):
    the stored sections are merged down to at most seven, and the lookup
    tries the contract type id before the contract type name. The SQL
    queries are parameters. */
module PrecedentDb {
  import opened Strings
  import opened Outlines

  /** A stored section row; either column may be NULL. */
  datatype SectionRow = SectionRow(heading: Option<string>, text: Option<string>)

  /** A stored precedent document row. */
  datatype DocRow = DocRow(title: Option<string>, frontMatter: Option<seq<string>>, placeholders: Option<seq<string>>)

  /** The four queries the lookup runs, by id and by name. */
  datatype Queries = Queries(
    docById: string -> Option<DocRow>,
    sectionsById: string -> seq<SectionRow>,
    docByName: string -> Option<DocRow>,
    sectionsByName: string -> seq<SectionRow>)

  /** The default `target_max` of `_merge_sections`. */
  const TargetMax: nat := 7
  const CombinedHeading: string := "Combined section"

  /** Python truthiness of an optional string. */
  predicate Truthy(s: Option<string>) { s.Some? && s.value != [] }

  /** A row on its own: heading and text, trimmed. */
  function TrimRow(row: SectionRow): Section {
    Section(Trim(OrEmpty(row.heading)), Trim(OrEmpty(row.text)))
  }

  /** The non-empty headings of a chunk, as stored (not trimmed). */
  function HeadingsOf(chunk: seq<SectionRow>): (r: seq<string>)
    ensures forall i :: 0 <= i < |r| ==> |r[i]| > 0
  {
    if chunk == [] then []
    else
      var rest := HeadingsOf(chunk[1..]);
      if Truthy(chunk[0].heading) then [chunk[0].heading.value] + rest else rest
  }

  /** The trimmed non-blank texts of a chunk, in order. */
  function BodiesOf(chunk: seq<SectionRow>): (r: seq<string>)
    ensures forall i :: 0 <= i < |r| ==> |r[i]| > 0
  {
    if chunk == [] then []
    else
      var t := Trim(OrEmpty(chunk[0].text));
      var rest := BodiesOf(chunk[1..]);
      if t != [] then [t] + rest else rest
  }

  lemma {:induction false} BodiesOfConcat(a: seq<SectionRow>, b: seq<SectionRow>)
    ensures BodiesOf(a + b) == BodiesOf(a) + BodiesOf(b)
  {
    if a != [] {
      assert (a + b)[0] == a[0] && (a + b)[1..] == a[1..] + b;
      BodiesOfConcat(a[1..], b);
    } else {
      assert a + b == b;
    }
  }

  /** One merged section for a chunk of rows. */
  function MergeChunk(chunk: seq<SectionRow>): (r: Section)
    ensures r.heading == CombinedHeading <== HeadingsOf(chunk) == []
    ensures HeadingsOf(chunk) != [] ==> r.heading == Join(HeadingsOf(chunk), " / ")
    ensures r.body == Join(BodiesOf(chunk), "\n\n")
  {
    var headings := HeadingsOf(chunk);
    Section(if headings != [] then Join(headings, " / ") else CombinedHeading, Join(BodiesOf(chunk), "\n\n"))
  }

  /** `rows` cut into consecutive chunks of `size` rows, the last one shorter. */
  function ChunksOf(rows: seq<SectionRow>, size: nat): (r: seq<seq<SectionRow>>)
    requires size > 0
    ensures forall i :: 0 <= i < |r| ==> 0 < |r[i]| <= size
    decreases |rows|
  {
    if rows == [] then []
    else
      var k := if |rows| < size then |rows| else size;
      [rows[..k]] + ChunksOf(rows[k..], size)
  }

  function Flatten(chunks: seq<seq<SectionRow>>): seq<SectionRow> {
    if chunks == [] then [] else chunks[0] + Flatten(chunks[1..])
  }

  /** The chunks are a partition of the rows, in order. */
  lemma {:induction false} ChunksPartition(rows: seq<SectionRow>, size: nat)
    requires size > 0
    ensures Flatten(ChunksOf(rows, size)) == rows
    decreases |rows|
  {
    if rows != [] {
      var k := if |rows| < size then |rows| else size;
      ChunksPartition(rows[k..], size);
      assert ChunksOf(rows, size)[1..] == ChunksOf(rows[k..], size);
      assert rows == rows[..k] + rows[k..];
    }
  }

  /** Rows that fit in `count` chunks give at most `count` chunks. */
  lemma {:induction false} ChunksCount(rows: seq<SectionRow>, size: nat, count: nat)
    requires size > 0 && |rows| <= count * size
    ensures |ChunksOf(rows, size)| <= count
    decreases |rows|
  {
    if rows != [] {
      var k := if |rows| < size then |rows| else size;
      assert count >= 1;
      if |rows| >= size {
        assert |rows[k..]| <= (count - 1) * size;
        ChunksCount(rows[k..], size, count - 1);
      }
    }
  }

  function MergeChunks(chunks: seq<seq<SectionRow>>): (r: seq<Section>)
    ensures |r| == |chunks|
    ensures forall i :: 0 <= i < |r| ==> r[i] == MergeChunk(chunks[i])
  {
    if chunks == [] then [] else [MergeChunk(chunks[0])] + MergeChunks(chunks[1..])
  }

  /** `ceil(n / TargetMax)`. */
  function ChunkSize(n: nat): nat {
    (n + TargetMax - 1) / TargetMax
  }

  /** What `_merge_sections` returns (precedent_db.py:108-138). */
  function MergedSections(rows: seq<SectionRow>): seq<Section> {
    if rows == [] then []
    else if |rows| <= TargetMax then seq(|rows|, i requires 0 <= i < |rows| => TrimRow(rows[i]))
    else MergeChunks(ChunksOf(rows, ChunkSize(|rows|)))
  }

  /** The merge keeps every row when there are few, and otherwise produces at
      most seven sections; it is empty exactly when there are no rows. */
  lemma MergedSectionsShape(rows: seq<SectionRow>)
    ensures MergedSections(rows) == [] <==> rows == []
    ensures |rows| <= TargetMax ==> |MergedSections(rows)| == |rows|
    ensures |rows| <= TargetMax ==> forall i :: 0 <= i < |rows| ==> MergedSections(rows)[i] == TrimRow(rows[i])
    ensures |MergedSections(rows)| <= TargetMax
  {
    var n := |rows|;
    if n > TargetMax {
      var size := ChunkSize(n);
      assert n + TargetMax - 1 == TargetMax * size + (n + TargetMax - 1) % TargetMax;
      assert n <= TargetMax * size;
      ChunksCount(rows, size, TargetMax);
    }
  }

  /** Merging loses no text: the bodies of the merged chunks, taken in order,
      are exactly the non-blank row texts in order. */
  lemma {:induction false} MergedBodiesInOrder(rows: seq<SectionRow>, size: nat)
    requires size > 0
    ensures BodiesOfChunks(ChunksOf(rows, size)) == BodiesOf(rows)
    decreases |rows|
  {
    if rows != [] {
      var k := if |rows| < size then |rows| else size;
      assert ChunksOf(rows, size)[1..] == ChunksOf(rows[k..], size);
      MergedBodiesInOrder(rows[k..], size);
      assert rows == rows[..k] + rows[k..];
      BodiesOfConcat(rows[..k], rows[k..]);
    }
  }

  function BodiesOfChunks(chunks: seq<seq<SectionRow>>): seq<string> {
    if chunks == [] then [] else BodiesOf(chunks[0]) + BodiesOfChunks(chunks[1..])
  }

  /** Merging the rows from `i` on is merging the chunk at `i`, then the rest. */
  lemma MergeStep(rows: seq<SectionRow>, i: nat, end: nat, size: nat)
    requires size > 0 && i < |rows| && end == (if i + size <= |rows| then i + size else |rows|)
    ensures MergeChunks(ChunksOf(rows[i..], size))
            == [MergeChunk(rows[i..end])] + MergeChunks(ChunksOf(rows[end..], size))
  {
    var tail := rows[i..];
    var k := end - i;
    assert tail[..k] == rows[i..end];
    assert tail[k..] == rows[end..];
    var later := ChunksOf(rows[end..], size);
    assert ChunksOf(tail, size) == [rows[i..end]] + later;
    assert ([rows[i..end]] + later)[1..] == later;
  }

  /** The loop invariant of `MergeSections` survives merging one more chunk. */
  lemma MergeLoopStep(rows: seq<SectionRow>, i: nat, end: nat, size: nat, merged: seq<Section>)
    requires size > 0 && i < |rows| && end == (if i + size <= |rows| then i + size else |rows|)
    requires merged + MergeChunks(ChunksOf(rows[i..], size)) == MergeChunks(ChunksOf(rows, size))
    ensures (merged + [MergeChunk(rows[i..end])]) + MergeChunks(ChunksOf(rows[end..], size))
            == MergeChunks(ChunksOf(rows, size))
  {
    MergeStep(rows, i, end, size);
    var later := MergeChunks(ChunksOf(rows[end..], size));
    assert (merged + [MergeChunk(rows[i..end])]) + later == merged + ([MergeChunk(rows[i..end])] + later);
  }

  /** `_merge_sections`, merging chunk by chunk as the source does. */
  method MergeSections(rows: seq<SectionRow>) returns (merged: seq<Section>)
    ensures merged == MergedSections(rows)
  {
    if rows == [] {
      return [];
    }
    if |rows| <= TargetMax {
      return seq(|rows|, i requires 0 <= i < |rows| => TrimRow(rows[i]));
    }
    var size := ChunkSize(|rows|);
    merged := [];
    var i := 0;
    while i < |rows|
      invariant 0 <= i <= |rows|
      invariant merged + MergeChunks(ChunksOf(rows[i..], size)) == MergeChunks(ChunksOf(rows, size))
      decreases |rows| - i
    {
      var end := if i + size <= |rows| then i + size else |rows|;
      var chunk := rows[i..end];
      MergeLoopStep(rows, i, end, size, merged);
      merged := merged + [MergeChunk(chunk)];
      i := end;
    }
  }

  /** One lookup path: an outline when the path has merged sections, using
      the document row when there is one (precedent_db.py:156-169). */
  function PathOutline(doc: Option<DocRow>, merged: seq<Section>): (r: Option<RawOutline>)
    ensures r.None? <==> merged == []
    ensures r.Some? && doc.None? ==>
              r.value.title.None? && r.value.frontMatter == Some([]) && r.value.placeholders == Some([])
    ensures r.Some? && doc.Some? ==>
              (r.value.title == doc.value.title && r.value.frontMatter == doc.value.frontMatter
               && r.value.placeholders == doc.value.placeholders)
    ensures r.Some? ==> r.value.sections.Some? && |r.value.sections.value| == |merged|
  {
    if merged == [] then None
    else
      var sections := seq(|merged|, i requires 0 <= i < |merged| => RawSection(Some(merged[i].heading), Some(merged[i].body)));
      if doc.Some? then Some(RawOutline(doc.value.title, doc.value.frontMatter, Some(sections), doc.value.placeholders))
      else Some(RawOutline(None, Some([]), Some(sections), Some([])))
  }

  function IdPath(contractTypeId: Option<string>, q: Queries): Option<RawOutline> {
    if Truthy(contractTypeId) then
      PathOutline(q.docById(contractTypeId.value), MergedSections(q.sectionsById(contractTypeId.value)))
    else None
  }

  function NamePath(contractTypeName: Option<string>, q: Queries): Option<RawOutline> {
    if Truthy(contractTypeName) then
      PathOutline(q.docByName(contractTypeName.value), MergedSections(q.sectionsByName(contractTypeName.value)))
    else None
  }

  /** `get_precedent_outline_from_db` (precedent_db.py:141-190): the id path
      first, the name path only when the id path yields no sections, and
      nothing when neither does, whatever document rows exist. */
  function GetOutlineFromDb(contractTypeId: Option<string>, contractTypeName: Option<string>, q: Queries): (r: Option<RawOutline>)
    ensures Truthy(contractTypeId) && q.sectionsById(contractTypeId.value) != [] ==>
              r == PathOutline(q.docById(contractTypeId.value), MergedSections(q.sectionsById(contractTypeId.value)))
    ensures (!Truthy(contractTypeId) || q.sectionsById(contractTypeId.value) == []) ==>
              r == NamePath(contractTypeName, q)
    ensures r.None? <==> (!Truthy(contractTypeId) || q.sectionsById(contractTypeId.value) == [])
                         && (!Truthy(contractTypeName) || q.sectionsByName(contractTypeName.value) == [])
  {
    MergedSectionsShape(q.sectionsById(OrEmpty(contractTypeId)));
    MergedSectionsShape(q.sectionsByName(OrEmpty(contractTypeName)));
    var byId := IdPath(contractTypeId, q);
    if byId.Some? then byId else NamePath(contractTypeName, q)
  }
}
