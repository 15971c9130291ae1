/** What the bytes `buildPdfBuffer` writes promise a PDF reader: how many
    objects and table slots there are, that every cross-reference entry is
    20 bytes long and holds the position where its object starts, that
    `startxref` holds the position of the table, and that every `/Length`
    counts the bytes of its stream (ISO 32000-1 sections 7.3.8, 7.5.4 and
    7.5.5). */
module PdfLayout {
  import opened Bytes
  import opened Strings
  import opened PdfWriter
  import CT = ContractText

  // ---------------------------------------------------------------------
  // Slices of concatenations. Each lemma takes the position it speaks of
  // as a parameter, so that its conclusion has the caller's own terms.
  // ---------------------------------------------------------------------

  lemma First<T>(all: seq<T>, a: seq<T>, b: seq<T>, c: seq<T>)
    requires all == a + b + c
    ensures |a| <= |all| && all[..|a|] == a
  {
    assert all == a + (b + c);
  }

  lemma InPrefix<T>(s: seq<T>, p: seq<T>, at: nat, t: seq<T>)
    requires at + |t| <= |p| <= |s| && s[..|p|] == p && p[at..at + |t|] == t
    ensures at + |t| <= |s| && s[at..at + |t|] == t
  {
    assert s[at..at + |t|] == s[..|p|][at..at + |t|];
  }

  lemma SliceOfPrefix<T>(s: seq<T>, n: nat, lo: nat, hi: nat)
    requires lo <= hi <= n <= |s|
    ensures s[..n][lo..hi] == s[lo..hi]
  {
  }

  lemma RightSlot<T>(all: seq<T>, a: seq<T>, b: seq<T>, lo: nat, pos: nat, len: nat, t: seq<T>)
    requires all == a + b && pos == |a| + lo
    requires lo + len <= |b| && b[lo..lo + len] == t
    ensures pos + len <= |all| && all[pos..pos + len] == t
  {
    assert all[pos..pos + len] == b[lo..lo + len];
  }

  lemma MiddleSlot<T>(all: seq<T>, a: seq<T>, b: seq<T>, c: seq<T>, lo: nat, pos: nat, len: nat, t: seq<T>)
    requires all == a + b + c && pos == |a| + lo
    requires lo + len <= |b| && b[lo..lo + len] == t
    ensures pos + len <= |all| && all[pos..pos + len] == t
  {
    assert all[pos..pos + len] == b[lo..lo + len];
  }

  lemma InnerSlot<T>(all: seq<T>, a: seq<T>, b: seq<T>, c: seq<T>, d: seq<T>, lo: nat, hi: nat, pos: nat, end: nat, t: seq<T>)
    requires all == a + (b + c) + d && pos == |a| + |b| + lo && end == |a| + |b| + hi
    requires lo <= hi <= |c| && c[lo..hi] == t
    ensures end <= |all| && all[pos..end] == t
  {
    assert all[pos..end] == c[lo..hi];
  }

  lemma LeftSlot<T>(all: seq<T>, a: seq<T>, b: seq<T>, lo: nat, hi: nat, t: seq<T>)
    requires all == a + b && lo <= hi <= |a| && a[lo..hi] == t
    ensures hi <= |all| && all[lo..hi] == t
  {
    assert all[lo..hi] == a[lo..hi];
  }

  lemma TailSlot<T>(all: seq<T>, a: seq<T>, b: seq<T>, lo: nat, hi: nat)
    requires all == a + b && lo == |a| && hi == |a| + |b|
    ensures hi <= |all| && all[lo..hi] == b
  {
    assert all[lo..hi] == b;
  }

  lemma SplitThree<T>(all: seq<T>, a: seq<T>, b: seq<T>, c: seq<T>)
    requires all == a + b + c
    ensures |a| + |b| <= |all| && all[|a|..|a| + |b|] == b && all[|a| + |b|..] == c
  {
    assert all[|a|..|a| + |b|] == b;
    assert all[|a| + |b|..] == c;
  }

  lemma LastSlot<T>(all: seq<T>, a: seq<T>, b: seq<T>, t: seq<T>)
    requires all == a + b && |t| <= |b| && b[|b| - |t|..] == t
    ensures |t| <= |all| && all[|all| - |t|..] == t
  {
    assert all[|all| - |t|..] == b[|b| - |t|..];
  }

  function Pow10(k: nat): (r: nat)
    ensures r >= 1
  {
    if k == 0 then 1 else 10 * Pow10(k - 1)
  }

  // ---------------------------------------------------------------------
  // Shape
  // ---------------------------------------------------------------------

  /** A text of n render lines makes max(1, ceil(n / 48)) pages and
      4 + 2 * pages objects, so the `offsets` array and the table have
      5 + 2 * pages slots, slot 0 being the free entry. */
  lemma {:induction false} PdfShape(text: string)
    ensures var lines := CT.RenderLines(text);
      var streams := Streams(Paginate(lines));
      && |streams| == (if |lines| == 0 then 1 else CeilDiv(|lines|, LinesPerPage))
      && |Offsets(Chunks(Bodies(streams)))| == 5 + 2 * |streams|
  {
    var lines := CT.RenderLines(text);
    PaginateProps(lines);
    if |lines| > 0 {
      assert CeilDiv(|lines|, LinesPerPage) >= 1;
    }
  }

  // ---------------------------------------------------------------------
  // Where the objects are
  // ---------------------------------------------------------------------

  /** The file is the header and objects, the table, and the trailer. */
  lemma LayoutParts(chunks: seq<seq<byte>>)
    ensures Layout(chunks) == Objects(chunks) + XrefSection(Offsets(chunks)) + TrailerBytes(|Offsets(chunks)|, |Objects(chunks)|)
  {
  }

  /** The objects written first are a prefix of those written later. */
  lemma {:induction false} RunPrefix(chunks: seq<seq<byte>>, m: nat, n: nat)
    requires m <= n <= |chunks|
    ensures |Run(chunks, m)| <= |Run(chunks, n)|
    ensures Run(chunks, n)[..|Run(chunks, m)|] == Run(chunks, m)
    decreases n
  {
    if m < n {
      RunPrefix(chunks, m, n - 1);
      var shorter := Run(chunks, n - 1);
      assert Run(chunks, n) == shorter + chunks[n - 1];
      assert Run(chunks, n)[..|shorter|] == shorter;
      assert Run(chunks, n)[..|Run(chunks, m)|] == shorter[..|Run(chunks, m)|];
    } else {
      assert Run(chunks, n)[..|Run(chunks, n)|] == Run(chunks, n);
    }
  }

  /** The encoded `id 0 obj` tag. */
  function TagBytes(id: nat): seq<byte> {
    Utf8(ObjectTag(id))
  }

  /** An encoded object starts with its encoded `id 0 obj` tag. */
  lemma {:induction false} TagFirst(id: nat, body: string)
    ensures |TagBytes(id)| <= |Utf8(ObjectText(id, body))|
    ensures Utf8(ObjectText(id, body))[..|TagBytes(id)|] == TagBytes(id)
  {
    var rest := "\n" + body + "\nendobj\n";
    assert ObjectText(id, body) == ObjectTag(id) + rest;
    Utf8Append(ObjectTag(id), rest);
  }

  /** A prefix of the `id`-th object sits in the run of all objects right
      after the objects before it. */
  lemma {:induction false} TagInRun(chunks: seq<seq<byte>>, id: nat, tag: seq<byte>)
    requires 1 <= id <= |chunks| && |tag| <= |chunks[id - 1]| && chunks[id - 1][..|tag|] == tag
    ensures |Run(chunks, id - 1)| + |tag| <= |Run(chunks, |chunks|)|
    ensures Run(chunks, |chunks|)[|Run(chunks, id - 1)|..|Run(chunks, id - 1)| + |tag|] == tag
  {
    var before := Run(chunks, id - 1);
    var upTo := Run(chunks, id);
    var all := Run(chunks, |chunks|);
    var lo, hi := |before|, |before| + |tag|;
    assert upTo == before + chunks[id - 1];
    assert upTo[lo..hi] == tag;
    RunPrefix(chunks, id, |chunks|);
    SliceOfPrefix(all, |upTo|, lo, hi);
  }

  /** A prefix of the `id`-th object sits at its recorded position. */
  lemma {:induction false} TagInObjects(chunks: seq<seq<byte>>, id: nat, tag: seq<byte>)
    requires 1 <= id <= |chunks| && |tag| <= |chunks[id - 1]| && chunks[id - 1][..|tag|] == tag
    ensures Offsets(chunks)[id] + |tag| <= |Objects(chunks)|
    ensures Objects(chunks)[Offsets(chunks)[id]..Offsets(chunks)[id] + |tag|] == tag
  {
    TagInRun(chunks, id, tag);
    var lo := |Run(chunks, id - 1)|;
    assert Offsets(chunks)[id] == HeaderSize + lo;
    RightSlot(Objects(chunks), HeaderBytes, Run(chunks, |chunks|), lo, Offsets(chunks)[id], |tag|, tag);
  }

  /** Bytes at position `lo` of the header and objects part are at the
      same position of the file. */
  lemma {:induction false} InObjectsPart(chunks: seq<seq<byte>>, lo: nat, t: seq<byte>)
    requires lo + |t| <= |Objects(chunks)| && Objects(chunks)[lo..lo + |t|] == t
    ensures lo + |t| <= |Layout(chunks)| && Layout(chunks)[lo..lo + |t|] == t
  {
    LayoutParts(chunks);
    First(Layout(chunks), Objects(chunks), XrefSection(Offsets(chunks)), TrailerBytes(|Offsets(chunks)|, |Objects(chunks)|));
    InPrefix(Layout(chunks), Objects(chunks), lo, t);
  }

  /** A prefix of object `id` is at `offsets[id]` in the file. */
  lemma {:induction false} TagInFile(chunks: seq<seq<byte>>, id: nat, tag: seq<byte>)
    requires 1 <= id <= |chunks| && |tag| <= |chunks[id - 1]| && chunks[id - 1][..|tag|] == tag
    ensures Offsets(chunks)[id] + |tag| <= |Objects(chunks)|
    ensures Layout(chunks)[Offsets(chunks)[id]..Offsets(chunks)[id] + |tag|] == tag
  {
    TagInObjects(chunks, id, tag);
    InObjectsPart(chunks, Offsets(chunks)[id], tag);
  }

  /** `offsets[id]` is where `id 0 obj` starts. */
  lemma {:induction false} ObjectAt(chunks: seq<seq<byte>>, id: nat, body: string)
    requires 1 <= id <= |chunks| && chunks[id - 1] == Utf8(ObjectText(id, body))
    ensures Offsets(chunks)[id] + |TagBytes(id)| <= |Objects(chunks)|
    ensures Layout(chunks)[Offsets(chunks)[id]..Offsets(chunks)[id] + |TagBytes(id)|] == TagBytes(id)
  {
    TagFirst(id, body);
    TagInFile(chunks, id, TagBytes(id));
  }

  /** Every recorded position lies inside the header and objects part. */
  lemma {:induction false} OffsetsWithin(chunks: seq<seq<byte>>, id: nat)
    requires 1 <= id <= |chunks|
    ensures Offsets(chunks)[id] <= |Objects(chunks)|
  {
    RunPrefix(chunks, id - 1, |chunks|);
    assert Offsets(chunks)[id] == ObjectOffset(chunks, id);
  }

  // ---------------------------------------------------------------------
  // Cross-reference entries
  // ---------------------------------------------------------------------

  lemma {:induction false} NatToStringWidth(n: nat, k: nat)
    requires 1 <= k && n < Pow10(k)
    ensures |NatToString(n)| <= k
    decreases k
  {
    if n >= 10 {
      assert k >= 2;
      NatToStringWidth(n / 10, k - 1);
    }
  }

  lemma {:induction false} ZerosValue(z: string)
    requires forall i :: 0 <= i < |z| ==> z[i] == '0'
    ensures DigitsValue(z) == 0
    decreases |z|
  {
    if z != [] {
      ZerosValue(z[..|z| - 1]);
    }
  }

  /** Leading zeros do not change the value of a digit string. */
  lemma {:induction false} LeadingZerosValue(z: string, s: string)
    requires forall i :: 0 <= i < |z| ==> z[i] == '0'
    requires forall i :: 0 <= i < |s| ==> IsDigit(s[i])
    ensures forall i :: 0 <= i < |z + s| ==> IsDigit((z + s)[i])
    ensures DigitsValue(z + s) == DigitsValue(s)
    decreases |s|
  {
    if s == [] {
      assert z + s == z;
      ZerosValue(z);
    } else {
      var init := s[..|s| - 1];
      assert (z + s)[..|z + s| - 1] == z + init;
      LeadingZerosValue(z, init);
    }
  }

  /** 10^10, the first position that does not fit in the ten digits of an
      entry. */
  const OffsetLimit: nat := 10_000_000_000

  /** A position below 10^10 padded to ten digits reads back as itself. */
  lemma {:induction false} PaddedDigits(offset: nat)
    requires offset < OffsetLimit
    ensures var p := PadStartZero(NatToString(offset), 10);
      && |p| == 10
      && (forall i :: 0 <= i < 10 ==> IsDigit(p[i]))
      && DigitsValue(p) == offset
  {
    var s := NatToString(offset);
    assert Pow10(10) == OffsetLimit;
    NatToStringWidth(offset, 10);
    var p := PadStartZero(s, 10);
    PadStartZeroEnds(s, 10);
    var z := p[..10 - |s|];
    assert p == z + s;
    LeadingZerosValue(z, s);
    NatToStringValue(offset);
  }

  /** An entry for a position below 10^10 is 20 bytes: ten digits that
      read back as the position, then ` 00000 n ` and a newline. */
  lemma {:induction false} XrefEntryShape(offset: nat)
    requires offset < OffsetLimit
    ensures var e := XrefEntry(offset);
      && |e| == 20 && |EntryBytes(offset)| == 20
      && (forall i :: 0 <= i < 10 ==> IsDigit(e[i]))
      && DigitsValue(e[..10]) == offset
      && e[10..] == " 00000 n \n"
  {
    PaddedDigits(offset);
    var p := PadStartZero(NatToString(offset), 10);
    var e := XrefEntry(offset);
    assert e[..10] == p;
    assert e[10..] == " 00000 n \n";
    assert IsAscii(e);
    Utf8Ascii(e);
  }

  /** The in-use entries are 20 bytes each. */
  lemma {:induction false} EntriesLength(offsets: seq<nat>, n: nat)
    requires 1 <= n <= |offsets|
    requires forall i :: 1 <= i < n ==> offsets[i] < OffsetLimit
    ensures |Entries(offsets, n)| == 20 * (n - 1)
    decreases n
  {
    if n > 1 {
      EntriesLength(offsets, n - 1);
      EntryWidth(offsets[n - 1]);
    }
  }

  /** Every entry is 20 bytes. */
  lemma {:induction false} EntryWidth(offset: nat)
    requires offset < OffsetLimit
    ensures |EntryBytes(offset)| == 20
  {
    XrefEntryShape(offset);
  }

  lemma EntriesSnoc(offsets: seq<nat>, n: nat)
    requires 2 <= n <= |offsets|
    ensures Entries(offsets, n) == Entries(offsets, n - 1) + EntryBytes(offsets[n - 1])
  {
  }

  /** Adding an entry keeps the earlier ones where they were. */
  lemma {:induction false} EntryKept(offsets: seq<nat>, n: nat, k: nat, t: seq<byte>)
    requires 2 <= n <= |offsets|
    requires 20 * k + 20 <= |Entries(offsets, n - 1)| && Entries(offsets, n - 1)[20 * k..20 * k + 20] == t
    ensures 20 * k + 20 <= |Entries(offsets, n)| && Entries(offsets, n)[20 * k..20 * k + 20] == t
  {
    EntriesSnoc(offsets, n);
    LeftSlot(Entries(offsets, n), Entries(offsets, n - 1), EntryBytes(offsets[n - 1]), 20 * k, 20 * k + 20, t);
  }

  /** The entry added last sits after the 20-byte entries before it. */
  lemma {:induction false} EntryLast(offsets: seq<nat>, n: nat, k: nat)
    requires 2 <= n <= |offsets| && k + 2 == n
    requires forall i :: 1 <= i < n ==> offsets[i] < OffsetLimit
    ensures 20 * k + 20 <= |Entries(offsets, n)|
    ensures Entries(offsets, n)[20 * k..20 * k + 20] == EntryBytes(offsets[k + 1])
  {
    EntriesSnoc(offsets, n);
    EntriesLength(offsets, n - 1);
    EntryWidth(offsets[n - 1]);
    TailSlot(Entries(offsets, n), Entries(offsets, n - 1), EntryBytes(offsets[n - 1]), 20 * k, 20 * k + 20);
  }

  /** Entry k, for object k + 1, is the k-th run of 20 bytes. */
  lemma {:induction false} EntryAt(offsets: seq<nat>, n: nat, k: nat)
    requires 1 <= n <= |offsets| && k < n - 1
    requires forall i :: 1 <= i < n ==> offsets[i] < OffsetLimit
    ensures 20 * k + 20 <= |Entries(offsets, n)|
    ensures Entries(offsets, n)[20 * k..20 * k + 20] == EntryBytes(offsets[k + 1])
    decreases n, 1
  {
    if k < n - 2 {
      EntryBefore(offsets, n, k);
    } else {
      EntryLast(offsets, n, k);
    }
  }

  /** An entry before the last one is where the shorter table has it. */
  lemma {:induction false} EntryBefore(offsets: seq<nat>, n: nat, k: nat)
    requires 2 <= n <= |offsets| && k < n - 2
    requires forall i :: 1 <= i < n ==> offsets[i] < OffsetLimit
    ensures 20 * k + 20 <= |Entries(offsets, n)|
    ensures Entries(offsets, n)[20 * k..20 * k + 20] == EntryBytes(offsets[k + 1])
    decreases n, 0
  {
    var t := EntryBytes(offsets[k + 1]);
    var shorter := Entries(offsets, n - 1);
    EntryAt(offsets, n - 1, k);
    assert 20 * k + 20 <= |shorter| && shorter[20 * k..20 * k + 20] == t;
    EntryKept(offsets, n, k, t);
  }

  /** Entry k of the table of a file whose objects take fewer than 10^10
      bytes is 20 bytes and holds `offsets[k + 1]`. */
  lemma {:induction false} TableEntry(chunks: seq<seq<byte>>, k: nat)
    requires k < |chunks| && |Objects(chunks)| < OffsetLimit
    ensures 20 * k + 20 <= |Table(Offsets(chunks))|
    ensures Table(Offsets(chunks))[20 * k..20 * k + 20] == EntryBytes(Offsets(chunks)[k + 1])
  {
    var offsets := Offsets(chunks);
    forall i | 1 <= i < |offsets|
      ensures offsets[i] < OffsetLimit
    {
      OffsetsWithin(chunks, i);
    }
    EntryAt(offsets, |offsets|, k);
  }

  /** Where the in-use entries start: after the header, the objects, the
      `xref` and subsection lines and the free entry. */
  function TableStart(chunks: seq<seq<byte>>): nat {
    |Objects(chunks)| + |XrefPrelude(|Offsets(chunks)|)|
  }

  /** Bytes at position `lo` of the table part are at position
      `|Objects(chunks)| + lo` of the file. */
  lemma {:induction false} InTablePart(chunks: seq<seq<byte>>, lo: nat, pos: nat, len: nat, t: seq<byte>)
    requires pos == |Objects(chunks)| + lo
    requires lo + len <= |XrefSection(Offsets(chunks))| && XrefSection(Offsets(chunks))[lo..lo + len] == t
    ensures pos + len <= |Layout(chunks)| && Layout(chunks)[pos..pos + len] == t
  {
    LayoutParts(chunks);
    MiddleSlot(Layout(chunks), Objects(chunks), XrefSection(Offsets(chunks)), TrailerBytes(|Offsets(chunks)|, |Objects(chunks)|),
      lo, pos, len, t);
  }

  /** The file with the table part split at the free entry. */
  lemma LayoutTable(chunks: seq<seq<byte>>)
    ensures Layout(chunks) == Objects(chunks) + (XrefPrelude(|Offsets(chunks)|) + Table(Offsets(chunks)))
      + TrailerBytes(|Offsets(chunks)|, |Objects(chunks)|)
  {
  }

  /** Slot k of the in-use entries is at `TableStart(chunks) + 20 * k` in
      the file. */
  lemma {:induction false} TableSlotInFile(chunks: seq<seq<byte>>, k: nat, t: seq<byte>)
    requires 20 * k + 20 <= |Table(Offsets(chunks))| && Table(Offsets(chunks))[20 * k..20 * k + 20] == t
    ensures TableStart(chunks) + 20 * k + 20 <= |Layout(chunks)|
    ensures Layout(chunks)[TableStart(chunks) + 20 * k..TableStart(chunks) + 20 * k + 20] == t
  {
    LayoutTable(chunks);
    InnerSlot(Layout(chunks), Objects(chunks), XrefPrelude(|Offsets(chunks)|), Table(Offsets(chunks)),
      TrailerBytes(|Offsets(chunks)|, |Objects(chunks)|), 20 * k, 20 * k + 20, TableStart(chunks) + 20 * k, TableStart(chunks) + 20 * k + 20, t);
  }

  /** The table entry of object k + 1: the 20 bytes after the `xref` line,
      the free entry and k other entries hold `offsets[k + 1]` as ten
      digits, for a file whose objects take fewer than 10^10 bytes. */
  lemma {:induction false} XrefEntryAt(chunks: seq<seq<byte>>, k: nat)
    requires k < |chunks|
    requires |Objects(chunks)| < OffsetLimit
    ensures TableStart(chunks) + 20 * k + 20 <= |Layout(chunks)|
    ensures Layout(chunks)[TableStart(chunks) + 20 * k..TableStart(chunks) + 20 * k + 20] == EntryBytes(Offsets(chunks)[k + 1])
  {
    TableEntry(chunks, k);
    TableSlotInFile(chunks, k, EntryBytes(Offsets(chunks)[k + 1]));
  }

  // ---------------------------------------------------------------------
  // Trailer
  // ---------------------------------------------------------------------

  /** The ASCII bytes of the keyword `xref`. */
  const XrefKeyword: seq<byte> := [0x78, 0x72, 0x65, 0x66]

  /** The table starts with the keyword `xref`. */
  lemma {:induction false} XrefLine(size: nat)
    ensures |XrefKeyword| <= |XrefPrelude(size)|
    ensures XrefPrelude(size)[..|XrefKeyword|] == XrefKeyword
  {
    var rest := "\n0 " + NatToString(size) + "\n" + FreeEntry;
    assert XrefHead(size) + FreeEntry == "xref" + rest;
    Utf8Append("xref", rest);
    assert Utf8("xref") == XrefKeyword;
  }

  /** The table starts with the keyword `xref`. */
  lemma {:induction false} XrefHeadStart(offsets: seq<nat>)
    ensures 0 + |XrefKeyword| <= |XrefSection(offsets)|
    ensures XrefSection(offsets)[0..0 + |XrefKeyword|] == XrefKeyword
  {
    XrefLine(|offsets|);
    assert XrefSection(offsets)[0..0 + |XrefKeyword|] == XrefPrelude(|offsets|)[..|XrefKeyword|];
  }

  /** The encoded last two lines: the position of the table and `%%EOF`. */
  function StartXrefBytes(start: nat): seq<byte> {
    Utf8(StartXref(start))
  }

  lemma {:induction false} TrailerEnd(size: nat, start: nat)
    ensures |StartXrefBytes(start)| <= |TrailerBytes(size, start)|
    ensures TrailerBytes(size, start)[|TrailerBytes(size, start)| - |StartXrefBytes(start)|..] == StartXrefBytes(start)
  {
    Utf8Append(TrailerHead(size), StartXref(start));
    LastSlot(TrailerBytes(size, start), Utf8(TrailerHead(size)), StartXrefBytes(start), StartXrefBytes(start));
  }

  /** The table starts right after the objects. */
  lemma {:induction false} XrefKeywordAt(chunks: seq<seq<byte>>)
    ensures |Objects(chunks)| + |XrefKeyword| <= |Layout(chunks)|
    ensures Layout(chunks)[|Objects(chunks)|..|Objects(chunks)| + |XrefKeyword|] == XrefKeyword
  {
    XrefHeadStart(Offsets(chunks));
    InTablePart(chunks, 0, |Objects(chunks)|, |XrefKeyword|, XrefKeyword);
  }

  /** The last bytes of the trailer are the last bytes of the file. */
  lemma {:induction false} TrailerTail(chunks: seq<seq<byte>>, t: seq<byte>)
    requires |t| <= |TrailerBytes(|Offsets(chunks)|, |Objects(chunks)|)|
    requires TrailerBytes(|Offsets(chunks)|, |Objects(chunks)|)[|TrailerBytes(|Offsets(chunks)|, |Objects(chunks)|)| - |t|..] == t
    ensures |t| <= |Layout(chunks)| && Layout(chunks)[|Layout(chunks)| - |t|..] == t
  {
    LayoutParts(chunks);
    LastSlot(Layout(chunks), Objects(chunks) + XrefSection(Offsets(chunks)), TrailerBytes(|Offsets(chunks)|, |Objects(chunks)|), t);
  }

  /** The file ends with the number after `startxref` and `%%EOF`. */
  lemma {:induction false} FileEnd(chunks: seq<seq<byte>>)
    ensures |StartXrefBytes(|Objects(chunks)|)| <= |Layout(chunks)|
    ensures Layout(chunks)[|Layout(chunks)| - |StartXrefBytes(|Objects(chunks)|)|..] == StartXrefBytes(|Objects(chunks)|)
  {
    TrailerEnd(|Offsets(chunks)|, |Objects(chunks)|);
    TrailerTail(chunks, StartXrefBytes(|Objects(chunks)|));
  }

  /** `startxref` is followed by the position where `xref` starts, and the
      file ends with that number and `%%EOF`. */
  lemma {:induction false} StartXrefAt(chunks: seq<seq<byte>>)
    ensures var doc := Layout(chunks);
      var start := |Objects(chunks)|;
      var tail := StartXrefBytes(start);
      && start + |XrefKeyword| <= |doc|
      && doc[start..start + |XrefKeyword|] == XrefKeyword
      && |tail| <= |doc|
      && doc[|doc| - |tail|..] == tail
      && DigitsValue(NatToString(start)) == start
  {
    XrefKeywordAt(chunks);
    FileEnd(chunks);
    NatToStringValue(|Objects(chunks)|);
  }

  // ---------------------------------------------------------------------
  // Streams
  // ---------------------------------------------------------------------

  /** The ASCII bytes of `stream` and a line feed. */
  const StreamLine: seq<byte> := [0x73, 0x74, 0x72, 0x65, 0x61, 0x6d, 0x0a]

  /** The ASCII bytes of a line feed and `endstream`. */
  const EndStream: seq<byte> := [0x0a, 0x65, 0x6e, 0x64, 0x73, 0x74, 0x72, 0x65, 0x61, 0x6d]

  /** The digits of the length follow `<< /Length ` and read back as it. */
  lemma {:induction false} LengthDigits(n: nat)
    ensures 11 + |NatToString(n)| <= |LengthPrefix(n)|
    ensures LengthPrefix(n)[11..11 + |NatToString(n)|] == NatToString(n)
    ensures DigitsValue(NatToString(n)) == n
  {
    NatToStringValue(n);
    assert LengthPrefix(n) == "<< /Length " + (NatToString(n) + " >>\nstream\n");
  }

  /** The encoded dictionary ends with the `stream` line. */
  lemma {:induction false} PrefixEnd(n: nat)
    ensures |StreamLine| <= |Utf8(LengthPrefix(n))|
    ensures Utf8(LengthPrefix(n))[|Utf8(LengthPrefix(n))| - |StreamLine|..] == StreamLine
  {
    var lead := "<< /Length " + NatToString(n) + " >>\n";
    assert LengthPrefix(n) == lead + "stream\n";
    Utf8Append(lead, "stream\n");
    assert Utf8("stream\n") == StreamLine;
    LastSlot(Utf8(LengthPrefix(n)), Utf8(lead), StreamLine, StreamLine);
  }

  lemma {:induction false} Utf8Three(a: string, b: string, c: string)
    ensures Utf8(a + b + c) == Utf8(a) + Utf8(b) + Utf8(c)
  {
    Utf8Append(a + b, c);
    Utf8Append(a, b);
  }

  lemma EndStreamBytes()
    ensures Utf8("\nendstream") == EndStream
  {
    Utf8Ascii("\nendstream");
  }

  /** The encoded object is the encoded dictionary, the data and the
      `endstream` line. */
  lemma {:induction false} BodyParts(stream: string)
    ensures Utf8(ContentBody(stream)) == Utf8(LengthPrefix(|Utf8(stream)|)) + Utf8(stream) + EndStream
  {
    Utf8Three(LengthPrefix(|Utf8(stream)|), stream, "\nendstream");
    EndStreamBytes();
  }

  /** The data sits right after the dictionary, and `endstream` right after
      the data. */
  lemma {:induction false} DataAndEnd(stream: string)
    ensures |Utf8(LengthPrefix(|Utf8(stream)|))| + |Utf8(stream)| <= |Utf8(ContentBody(stream))|
    ensures Utf8(ContentBody(stream))[|Utf8(LengthPrefix(|Utf8(stream)|))|..|Utf8(LengthPrefix(|Utf8(stream)|))| + |Utf8(stream)|] == Utf8(stream)
    ensures Utf8(ContentBody(stream))[|Utf8(LengthPrefix(|Utf8(stream)|))| + |Utf8(stream)|..] == EndStream
  {
    BodyParts(stream);
    SplitThree(Utf8(ContentBody(stream)), Utf8(LengthPrefix(|Utf8(stream)|)), Utf8(stream), EndStream);
  }

  /** A content object's `/Length` is the number of bytes between the
      `stream` line and `\nendstream`, and the digits read back as it. */
  lemma {:induction false} StreamLength(stream: string)
    ensures var data := Utf8(stream);
      var prefix := Utf8(LengthPrefix(|data|));
      var body := Utf8(ContentBody(stream));
      && LengthPrefix(|data|)[11..11 + |NatToString(|data|)|] == NatToString(|data|)
      && DigitsValue(NatToString(|data|)) == |data|
      && |prefix| >= |StreamLine| && prefix[|prefix| - |StreamLine|..] == StreamLine
      && |prefix| + |data| <= |body|
      && body[|prefix|..|prefix| + |data|] == data
      && body[|prefix| + |data|..] == EndStream
  {
    LengthDigits(|Utf8(stream)|);
    PrefixEnd(|Utf8(stream)|);
    DataAndEnd(stream);
  }
}
