/** The stored (method 0) ZIP writer behind the DOCX export: a local file
    header, name and data per entry (PKWARE APPNOTE.TXT section 4.3.7),
    then a central directory header and name per entry (section 4.3.12),
    then the end of central directory record (section 4.3.16).  Node's
    field writers throw a RangeError for a value that does not fit its
    field; that is the `Failure` outcome here.

    The layout is defined for any list of 32-bit checksums `cs`, one per
    entry, and the archive `buildZip` writes is the layout at the CRC-32 of
    each entry's data: where each part of the archive lies does not depend
    on the checksum values. */
module ZipWriter {
  import opened Bytes
  import opened Crc32
  import Strings

  /** An entry as `buildZip` receives it. */
  datatype Entry = Entry(name: string, data: seq<byte>)

  /** An entry whose name has been through `Buffer.from(name, 'utf8')`. */
  datatype File = File(name: seq<byte>, data: seq<byte>)

  function EncodeNames(entries: seq<Entry>): (fs: seq<File>)
    ensures |fs| == |entries|
    ensures forall i :: 0 <= i < |entries| ==> fs[i] == File(Utf8(entries[i].name), entries[i].data)
  {
    seq(|entries|, i requires 0 <= i < |entries| => File(Utf8(entries[i].name), entries[i].data))
  }

  const LocalSignature: nat := 0x0403_4b50
  const CentralSignature: nat := 0x0201_4b50
  const EndSignature: nat := 0x0605_4b50
  /** "Version needed to extract" and "version made by": 2.0. */
  const Version: nat := 20
  const LocalHeaderSize: nat := 30
  const CentralHeaderSize: nat := 46
  const EndRecordSize: nat := 22

  const RangeError := "RangeError"

  /** A name length and a data size that the 16- and 32-bit fields hold. */
  predicate EntryFits(e: File) {
    |e.name| < Two16 && |e.data| < Two32
  }

  /** Section 4.3.7; the flags, method, time, date and extra-length fields
      are 0. */
  function LocalHeader(name: seq<byte>, crc: nat, size: nat): (r: seq<byte>)
    requires |name| < Two16 && crc < Two32 && size < Two32
    ensures |r| == LocalHeaderSize
  {
    LE32(LocalSignature) + LE16(Version) + LE16(0) + LE16(0) + LE16(0) + LE16(0)
      + LE32(crc) + LE32(size) + LE32(size) + LE16(|name|) + LE16(0)
  }

  /** Section 4.3.12; everything but the versions, checksum, sizes, name
      length and local header offset is 0. */
  function CentralHeader(name: seq<byte>, crc: nat, size: nat, offset: nat): (r: seq<byte>)
    requires |name| < Two16 && crc < Two32 && size < Two32 && offset < Two32
    ensures |r| == CentralHeaderSize
  {
    LE32(CentralSignature) + LE16(Version) + LE16(Version) + LE16(0) + LE16(0) + LE16(0) + LE16(0)
      + LE32(crc) + LE32(size) + LE32(size) + LE16(|name|) + LE16(0) + LE16(0) + LE16(0) + LE16(0)
      + LE32(0) + LE32(offset)
  }

  /** Section 4.3.16, for a single-disk archive without a comment. */
  function EndRecord(count: nat, size: nat, offset: nat): (r: seq<byte>)
    requires count < Two16 && size < Two32 && offset < Two32
    ensures |r| == EndRecordSize
  {
    LE32(EndSignature) + LE16(0) + LE16(0) + LE16(count) + LE16(count) + LE32(size) + LE32(offset) + LE16(0)
  }

  function LocalSize(e: File): nat {
    LocalHeaderSize + |e.name| + |e.data|
  }

  /** The header, name and data of one entry. */
  function LocalChunk(e: File, crc: nat): (r: seq<byte>)
    requires EntryFits(e) && crc < Two32
    ensures |r| == LocalSize(e)
  {
    LocalHeader(e.name, crc, |e.data|) + e.name + e.data
  }

  /** The central directory header and name of one entry. */
  function CentralChunk(e: File, crc: nat, offset: nat): (r: seq<byte>)
    requires EntryFits(e) && crc < Two32 && offset < Two32
    ensures |r| == CentralHeaderSize + |e.name|
  {
    CentralHeader(e.name, crc, |e.data|, offset) + e.name
  }

  /** Where the local header of entry `n` starts: the sizes of the local
      chunks before it. */
  function Offset(es: seq<File>, n: nat): nat
    requires n <= |es|
  {
    if n == 0 then 0 else Offset(es, n - 1) + LocalSize(es[n - 1])
  }

  function CentralSize(es: seq<File>, n: nat): nat
    requires n <= |es|
  {
    if n == 0 then 0 else CentralSize(es, n - 1) + CentralHeaderSize + |es[n - 1].name|
  }

  predicate FitUpTo(es: seq<File>, n: nat) {
    forall i :: 0 <= i < n && i < |es| ==> EntryFits(es[i])
  }

  /** One 32-bit checksum per entry. */
  predicate Crcs(es: seq<File>, cs: seq<nat>) {
    |cs| == |es| && forall i :: 0 <= i < |cs| ==> cs[i] < Two32
  }

  /** Everything Node's writers would accept. */
  predicate Fits(es: seq<File>) {
    FitUpTo(es, |es|) && |es| < Two16 && Offset(es, |es|) < Two32 && CentralSize(es, |es|) < Two32
  }

  lemma {:induction false} OffsetMonotone(es: seq<File>, m: nat, n: nat)
    requires m <= n <= |es|
    ensures Offset(es, m) <= Offset(es, n)
    decreases n
  {
    if m < n {
      OffsetMonotone(es, m, n - 1);
    }
  }

  function Locals(es: seq<File>, cs: seq<nat>, n: nat): (r: seq<byte>)
    requires n <= |es| && FitUpTo(es, n) && Crcs(es, cs)
    ensures |r| == Offset(es, n)
  {
    if n == 0 then [] else Locals(es, cs, n - 1) + LocalChunk(es[n - 1], cs[n - 1])
  }

  function Centrals(es: seq<File>, cs: seq<nat>, n: nat): (r: seq<byte>)
    requires n <= |es| && FitUpTo(es, n) && Crcs(es, cs) && (n > 0 ==> Offset(es, n - 1) < Two32)
    ensures |r| == CentralSize(es, n)
  {
    if n == 0 then []
    else Centrals(es, cs, n - 1) + CentralChunk(es[n - 1], cs[n - 1], Offset(es, n - 1))
  }

  /** The archive of entries that fit, with checksums `cs`. */
  function Archive(es: seq<File>, cs: seq<nat>): (r: seq<byte>)
    requires Fits(es) && Crcs(es, cs)
    ensures |r| == Offset(es, |es|) + CentralSize(es, |es|) + EndRecordSize
  {
    Locals(es, cs, |es|) + Centrals(es, cs, |es|) + EndRecord(|es|, CentralSize(es, |es|), Offset(es, |es|))
  }

  /** The CRC-32 of each entry's data. */
  function Checksums(es: seq<File>): (cs: seq<nat>)
    ensures |cs| == |es|
    ensures forall i :: 0 <= i < |es| ==> cs[i] == Checksum(es[i].data)
  {
    seq(|es|, i requires 0 <= i < |es| => Checksum(es[i].data))
  }

  lemma ChecksumsFit(es: seq<File>)
    ensures Crcs(es, Checksums(es))
  {
    forall i | 0 <= i < |es| {
      ChecksumBound(es[i].data);
    }
  }

  /** `buildZip(entries)`: the archive, or the RangeError a field writer
      throws. */
  function Zip(entries: seq<Entry>): Strings.Result<seq<byte>> {
    var es := EncodeNames(entries);
    if Fits(es) then ChecksumsFit(es); Strings.Success(Archive(es, Checksums(es)))
    else Strings.Failure(RangeError)
  }

  /** `buildZip` throws exactly when a name, a size, an offset or the
      entry count does not fit its field. */
  lemma ZipSucceedsIff(entries: seq<Entry>)
    ensures Zip(entries).Success? <==> Fits(EncodeNames(entries))
  {
  }

  /** What the first pass remembers of each entry for the second. */
  datatype Record = Record(name: seq<byte>, crc: nat, size: nat, offset: nat)

  function RecordOf(es: seq<File>, cs: seq<nat>, k: nat): Record
    requires k < |es| == |cs|
  {
    Record(es[k].name, cs[k], |es[k].data|, Offset(es, k))
  }

  function RecordsOf(es: seq<File>, cs: seq<nat>, n: nat): (r: seq<Record>)
    requires n <= |es| == |cs|
    ensures |r| == n
  {
    if n == 0 then [] else RecordsOf(es, cs, n - 1) + [RecordOf(es, cs, n - 1)]
  }

  lemma {:induction false} RecordsAt(es: seq<File>, cs: seq<nat>, n: nat, k: nat)
    requires k < n <= |es| == |cs|
    ensures RecordsOf(es, cs, n)[k] == RecordOf(es, cs, k)
  {
    if k < n - 1 {
      RecordsAt(es, cs, n - 1, k);
    }
  }

  lemma FitStep(es: seq<File>, i: nat)
    requires i < |es| && FitUpTo(es, i) && EntryFits(es[i])
    ensures FitUpTo(es, i + 1)
  {
  }

  lemma CentralsStep(es: seq<File>, cs: seq<nat>, i: nat)
    requires i < |es| && FitUpTo(es, i + 1) && Crcs(es, cs) && Offset(es, i) < Two32
    ensures Centrals(es, cs, i + 1)
      == Centrals(es, cs, i) + (CentralHeader(es[i].name, cs[i], |es[i].data|, Offset(es, i)) + es[i].name)
  {
  }

  /** The first pass: a local chunk per entry, advancing `offset`.  `ok`
      is false when a name or a size does not fit its field. */
  method WriteLocals(table: array<nat>, entries: seq<File>, ghost cs: seq<nat>)
    returns (ok: bool, locals: seq<byte>, records: seq<Record>, offset: nat)
    requires IsTable(table)
    requires cs == Checksums(entries) && Crcs(entries, cs)
    ensures ok <==> FitUpTo(entries, |entries|)
    ensures ok ==> locals == Locals(entries, cs, |entries|)
    ensures ok ==> offset == Offset(entries, |entries|)
    ensures ok ==> records == RecordsOf(entries, cs, |entries|)
  {
    locals, records, offset := [], [], 0;
    for i := 0 to |entries|
      invariant offset == Offset(entries, i)
      invariant FitUpTo(entries, i)
      invariant records == RecordsOf(entries, cs, i)
      invariant locals == Locals(entries, cs, i)
    {
      var e := entries[i];
      var crc := ComputeCrc32(table, e.data);
      var size := |e.data|;
      if |e.name| >= Two16 || size >= Two32 {
        return false, locals, records, offset;
      }
      FitStep(entries, i);
      locals := locals + (LocalHeader(e.name, crc, size) + e.name + e.data);
      records := records + [Record(e.name, crc, size, offset)];
      offset := offset + LocalHeaderSize + |e.name| + size;
    }
    ok := true;
  }

  /** The second pass: a central directory header and name per record.
      `ok` is false when a local header offset does not fit its field. */
  method WriteCentral(entries: seq<File>, records: seq<Record>, ghost cs: seq<nat>)
    returns (ok: bool, central: seq<byte>)
    requires FitUpTo(entries, |entries|) && Crcs(entries, cs)
    requires records == RecordsOf(entries, cs, |entries|)
    ensures ok <==> (|entries| == 0 || Offset(entries, |entries| - 1) < Two32)
    ensures ok ==> central == Centrals(entries, cs, |entries|)
  {
    central := [];
    for i := 0 to |records|
      invariant i > 0 ==> Offset(entries, i - 1) < Two32
      invariant central == Centrals(entries, cs, i)
    {
      var rec := records[i];
      RecordsAt(entries, cs, |entries|, i);
      if rec.offset >= Two32 {
        OffsetMonotone(entries, i, |entries| - 1);
        return false, central;
      }
      CentralsStep(entries, cs, i);
      central := central + (CentralHeader(rec.name, rec.crc, rec.size, rec.offset) + rec.name);
    }
    ok := true;
  }

  /** `buildZip(entries)`. */
  method BuildZip(table: array<nat>, input: seq<Entry>) returns (r: Strings.Result<seq<byte>>)
    requires IsTable(table)
    ensures r == Zip(input)
  {
    var entries := EncodeNames(input);
    ghost var cs := Checksums(entries);
    ChecksumsFit(entries);
    var ok, locals, records, offset := WriteLocals(table, entries, cs);
    if !ok {
      return Strings.Failure(RangeError);
    }
    var central;
    ok, central := WriteCentral(entries, records, cs);
    if !ok {
      OffsetMonotone(entries, |entries| - 1, |entries|);
      return Strings.Failure(RangeError);
    }
    if |records| >= Two16 || |central| >= Two32 || offset >= Two32 {
      return Strings.Failure(RangeError);
    }
    r := Strings.Success(locals + central + EndRecord(|records|, |central|, offset));
  }

  /** The fields of a local header, read back (section 4.3.7): the
      signature, version 2.0, method 0 (stored), the checksum, the two
      sizes (equal, as nothing is compressed) and the name length. */
  lemma LocalHeaderFields(name: seq<byte>, crc: nat, size: nat)
    requires |name| < Two16 && crc < Two32 && size < Two32
    ensures ReadLE32(LocalHeader(name, crc, size)[..4]) == LocalSignature
    ensures ReadLE16(LocalHeader(name, crc, size)[4..6]) == Version
    ensures ReadLE16(LocalHeader(name, crc, size)[8..10]) == 0
    ensures ReadLE32(LocalHeader(name, crc, size)[14..18]) == crc
    ensures ReadLE32(LocalHeader(name, crc, size)[18..22]) == size
    ensures ReadLE32(LocalHeader(name, crc, size)[22..26]) == size
    ensures ReadLE16(LocalHeader(name, crc, size)[26..28]) == |name|
  {
    LocalSignatureAt(name, crc, size);
    LocalVersionAt(name, crc, size);
    LocalMethodAt(name, crc, size);
    LocalCrcAt(name, crc, size);
    LocalCompressedSizeAt(name, crc, size);
    LocalSizeAt(name, crc, size);
    LocalNameLengthAt(name, crc, size);
  }

  lemma LocalSignatureAt(name: seq<byte>, crc: nat, size: nat)
    requires |name| < Two16 && crc < Two32 && size < Two32
    ensures LocalHeader(name, crc, size)[..4] == LE32(LocalSignature)
  {
  }

  lemma LocalVersionAt(name: seq<byte>, crc: nat, size: nat)
    requires |name| < Two16 && crc < Two32 && size < Two32
    ensures LocalHeader(name, crc, size)[4..6] == LE16(Version)
  {
  }

  lemma LocalMethodAt(name: seq<byte>, crc: nat, size: nat)
    requires |name| < Two16 && crc < Two32 && size < Two32
    ensures LocalHeader(name, crc, size)[8..10] == LE16(0)
  {
  }

  lemma LocalCrcAt(name: seq<byte>, crc: nat, size: nat)
    requires |name| < Two16 && crc < Two32 && size < Two32
    ensures LocalHeader(name, crc, size)[14..18] == LE32(crc)
  {
  }

  lemma LocalCompressedSizeAt(name: seq<byte>, crc: nat, size: nat)
    requires |name| < Two16 && crc < Two32 && size < Two32
    ensures LocalHeader(name, crc, size)[18..22] == LE32(size)
  {
  }

  lemma LocalSizeAt(name: seq<byte>, crc: nat, size: nat)
    requires |name| < Two16 && crc < Two32 && size < Two32
    ensures LocalHeader(name, crc, size)[22..26] == LE32(size)
  {
  }

  lemma LocalNameLengthAt(name: seq<byte>, crc: nat, size: nat)
    requires |name| < Two16 && crc < Two32 && size < Two32
    ensures LocalHeader(name, crc, size)[26..28] == LE16(|name|)
  {
  }

  /** The fields of a central directory header, read back (section
      4.3.12), ending with the offset of the matching local header. */
  lemma CentralHeaderFields(name: seq<byte>, crc: nat, size: nat, offset: nat)
    requires |name| < Two16 && crc < Two32 && size < Two32 && offset < Two32
    ensures ReadLE32(CentralHeader(name, crc, size, offset)[..4]) == CentralSignature
    ensures ReadLE16(CentralHeader(name, crc, size, offset)[10..12]) == 0
    ensures ReadLE32(CentralHeader(name, crc, size, offset)[16..20]) == crc
    ensures ReadLE32(CentralHeader(name, crc, size, offset)[20..24]) == size
    ensures ReadLE32(CentralHeader(name, crc, size, offset)[24..28]) == size
    ensures ReadLE16(CentralHeader(name, crc, size, offset)[28..30]) == |name|
    ensures ReadLE32(CentralHeader(name, crc, size, offset)[42..46]) == offset
  {
    CentralSignatureAt(name, crc, size, offset);
    CentralMethodAt(name, crc, size, offset);
    CentralCrcAt(name, crc, size, offset);
    CentralCompressedSizeAt(name, crc, size, offset);
    CentralSizeAt(name, crc, size, offset);
    CentralNameLengthAt(name, crc, size, offset);
    CentralOffsetAt(name, crc, size, offset);
  }

  lemma CentralSignatureAt(name: seq<byte>, crc: nat, size: nat, offset: nat)
    requires |name| < Two16 && crc < Two32 && size < Two32 && offset < Two32
    ensures CentralHeader(name, crc, size, offset)[..4] == LE32(CentralSignature)
  {
  }

  lemma CentralMethodAt(name: seq<byte>, crc: nat, size: nat, offset: nat)
    requires |name| < Two16 && crc < Two32 && size < Two32 && offset < Two32
    ensures CentralHeader(name, crc, size, offset)[10..12] == LE16(0)
  {
  }

  lemma CentralCrcAt(name: seq<byte>, crc: nat, size: nat, offset: nat)
    requires |name| < Two16 && crc < Two32 && size < Two32 && offset < Two32
    ensures CentralHeader(name, crc, size, offset)[16..20] == LE32(crc)
  {
  }

  lemma CentralCompressedSizeAt(name: seq<byte>, crc: nat, size: nat, offset: nat)
    requires |name| < Two16 && crc < Two32 && size < Two32 && offset < Two32
    ensures CentralHeader(name, crc, size, offset)[20..24] == LE32(size)
  {
  }

  lemma CentralSizeAt(name: seq<byte>, crc: nat, size: nat, offset: nat)
    requires |name| < Two16 && crc < Two32 && size < Two32 && offset < Two32
    ensures CentralHeader(name, crc, size, offset)[24..28] == LE32(size)
  {
  }

  lemma CentralNameLengthAt(name: seq<byte>, crc: nat, size: nat, offset: nat)
    requires |name| < Two16 && crc < Two32 && size < Two32 && offset < Two32
    ensures CentralHeader(name, crc, size, offset)[28..30] == LE16(|name|)
  {
  }

  lemma CentralOffsetAt(name: seq<byte>, crc: nat, size: nat, offset: nat)
    requires |name| < Two16 && crc < Two32 && size < Two32 && offset < Two32
    ensures CentralHeader(name, crc, size, offset)[42..46] == LE32(offset)
  {
  }

  /** The fields of the end record, read back (section 4.3.16). */
  lemma EndRecordFields(count: nat, size: nat, offset: nat)
    requires count < Two16 && size < Two32 && offset < Two32
    ensures ReadLE32(EndRecord(count, size, offset)[..4]) == EndSignature
    ensures ReadLE16(EndRecord(count, size, offset)[8..10]) == count
    ensures ReadLE16(EndRecord(count, size, offset)[10..12]) == count
    ensures ReadLE32(EndRecord(count, size, offset)[12..16]) == size
    ensures ReadLE32(EndRecord(count, size, offset)[16..20]) == offset
  {
    EndSignatureAt(count, size, offset);
    EndDiskCountAt(count, size, offset);
    EndTotalCountAt(count, size, offset);
    EndDirectorySizeAt(count, size, offset);
    EndDirectoryOffsetAt(count, size, offset);
  }

  lemma EndSignatureAt(count: nat, size: nat, offset: nat)
    requires count < Two16 && size < Two32 && offset < Two32
    ensures EndRecord(count, size, offset)[..4] == LE32(EndSignature)
  {
  }

  lemma EndDiskCountAt(count: nat, size: nat, offset: nat)
    requires count < Two16 && size < Two32 && offset < Two32
    ensures EndRecord(count, size, offset)[8..10] == LE16(count)
  {
  }

  lemma EndTotalCountAt(count: nat, size: nat, offset: nat)
    requires count < Two16 && size < Two32 && offset < Two32
    ensures EndRecord(count, size, offset)[10..12] == LE16(count)
  {
  }

  lemma EndDirectorySizeAt(count: nat, size: nat, offset: nat)
    requires count < Two16 && size < Two32 && offset < Two32
    ensures EndRecord(count, size, offset)[12..16] == LE32(size)
  {
  }

  lemma EndDirectoryOffsetAt(count: nat, size: nat, offset: nat)
    requires count < Two16 && size < Two32 && offset < Two32
    ensures EndRecord(count, size, offset)[16..20] == LE32(offset)
  {
  }

  lemma PrefixThrough(a: seq<byte>, b: seq<byte>, k: nat)
    requires k <= |a|
    ensures (a + b)[..k] == a[..k]
  {
  }

  lemma MiddlePiece(all: seq<byte>, a: seq<byte>, b: seq<byte>, c: seq<byte>, lo: nat, hi: nat, piece: seq<byte>)
    requires all == a + b + c && lo <= hi <= |b| && b[lo..hi] == piece
    ensures |a| + hi <= |all| && all[|a| + lo..|a| + hi] == piece
  {
    assert all[|a| + lo..|a| + hi] == (a + b)[|a| + lo..|a| + hi];
  }

  /** The bytes between `lo` and `hi` of a sequence whose first `hi` bytes
      are `before + chunk`, with `before` of length `lo`. */
  lemma PieceOf(all: seq<byte>, before: seq<byte>, chunk: seq<byte>, lo: nat, hi: nat)
    requires lo == |before| && lo <= hi <= |all| && all[..hi] == before + chunk
    ensures all[lo..hi] == chunk
  {
    assert all[lo..hi] == all[..hi][lo..];
  }

  lemma {:induction false} LocalsPrefix(es: seq<File>, cs: seq<nat>, n: nat, m: nat)
    requires n <= m <= |es| && FitUpTo(es, m) && Crcs(es, cs)
    ensures Offset(es, n) <= Offset(es, m)
    ensures Locals(es, cs, m)[..Offset(es, n)] == Locals(es, cs, n)
    decreases m
  {
    OffsetMonotone(es, n, m);
    if n < m {
      LocalsPrefix(es, cs, n, m - 1);
      OffsetMonotone(es, n, m - 1);
      PrefixThrough(Locals(es, cs, m - 1), LocalChunk(es[m - 1], cs[m - 1]), Offset(es, n));
    }
  }

  lemma {:induction false} CentralsPrefix(es: seq<File>, cs: seq<nat>, n: nat, m: nat)
    requires n <= m <= |es| && FitUpTo(es, m) && Crcs(es, cs) && (m > 0 ==> Offset(es, m - 1) < Two32)
    ensures n > 0 ==> Offset(es, n - 1) < Two32
    ensures CentralSize(es, n) <= CentralSize(es, m)
    ensures Centrals(es, cs, m)[..CentralSize(es, n)] == Centrals(es, cs, n)
    decreases m
  {
    if n < m {
      if m > 1 {
        OffsetMonotone(es, m - 2, m - 1);
      }
      CentralsPrefix(es, cs, n, m - 1);
      PrefixThrough(Centrals(es, cs, m - 1), CentralChunk(es[m - 1], cs[m - 1], Offset(es, m - 1)),
        CentralSize(es, n));
    }
  }

  /** Entry `i`'s local header, name and data lie at `Offset(es, i)` of
      the local part. */
  lemma LocalWithin(es: seq<File>, cs: seq<nat>, i: nat)
    requires i < |es| && FitUpTo(es, |es|) && Crcs(es, cs)
    ensures Offset(es, i) <= Offset(es, i + 1) <= Offset(es, |es|)
    ensures Locals(es, cs, |es|)[Offset(es, i)..Offset(es, i + 1)] == LocalChunk(es[i], cs[i])
  {
    LocalsPrefix(es, cs, i + 1, |es|);
    PieceOf(Locals(es, cs, |es|), Locals(es, cs, i), LocalChunk(es[i], cs[i]), Offset(es, i), Offset(es, i + 1));
  }

  lemma {:induction false} CentralWithin(es: seq<File>, cs: seq<nat>, i: nat)
    requires i < |es| && FitUpTo(es, |es|) && Crcs(es, cs) && Offset(es, |es| - 1) < Two32
    ensures Offset(es, i) < Two32
    ensures CentralSize(es, i + 1) <= CentralSize(es, |es|)
    ensures Centrals(es, cs, |es|)[CentralSize(es, i)..CentralSize(es, i + 1)]
      == CentralChunk(es[i], cs[i], Offset(es, i))
  {
    CentralBounds(es, cs, i);
    CentralPiece(es, cs, i);
  }

  lemma CentralBounds(es: seq<File>, cs: seq<nat>, i: nat)
    requires i < |es| && FitUpTo(es, |es|) && Crcs(es, cs) && Offset(es, |es| - 1) < Two32
    ensures Offset(es, i) < Two32 && (i > 0 ==> Offset(es, i - 1) < Two32)
    ensures CentralSize(es, i + 1) <= CentralSize(es, |es|)
    ensures Centrals(es, cs, |es|)[..CentralSize(es, i + 1)] == Centrals(es, cs, i + 1)
  {
    OffsetMonotone(es, i, |es| - 1);
    if i > 0 {
      OffsetMonotone(es, i - 1, i);
    }
    CentralsPrefix(es, cs, i + 1, |es|);
  }

  lemma CentralPiece(es: seq<File>, cs: seq<nat>, i: nat)
    requires i < |es| && FitUpTo(es, |es|) && Crcs(es, cs) && Offset(es, |es| - 1) < Two32
    requires Offset(es, i) < Two32 && (i > 0 ==> Offset(es, i - 1) < Two32)
    requires CentralSize(es, i + 1) <= CentralSize(es, |es|)
    requires Centrals(es, cs, |es|)[..CentralSize(es, i + 1)] == Centrals(es, cs, i + 1)
    ensures Centrals(es, cs, |es|)[CentralSize(es, i)..CentralSize(es, i + 1)]
      == CentralChunk(es[i], cs[i], Offset(es, i))
  {
    CentralsSnoc(es, cs, i);
    PieceOfPrefix(Centrals(es, cs, |es|), Centrals(es, cs, i + 1), Centrals(es, cs, i),
        CentralChunk(es[i], cs[i], Offset(es, i)), CentralSize(es, i + 1));
  }

  lemma CentralsSnoc(es: seq<File>, cs: seq<nat>, i: nat)
    requires i < |es| && FitUpTo(es, i + 1) && Crcs(es, cs) && Offset(es, i) < Two32
    requires i > 0 ==> Offset(es, i - 1) < Two32
    ensures Centrals(es, cs, i + 1) == Centrals(es, cs, i) + CentralChunk(es[i], cs[i], Offset(es, i))
  {
  }

  lemma PieceOfPrefix(all: seq<byte>, upto: seq<byte>, before: seq<byte>, chunk: seq<byte>, hi: nat)
    requires hi <= |all| && all[..hi] == upto && upto == before + chunk
    ensures all[|before|..hi] == chunk
  {
    assert all[|before|..hi] == all[..hi][|before|..];
  }

  /** The archive is the local part, then the central directory where
      the end record says it starts (right after the last local chunk) and
      as long as it says, then the end record.  With `LocalWithin` and
      `CentralWithin`, entry `i`'s local chunk lies at `Offset(es, i)` and
      its central header and name at `Offset(es, |es|) + CentralSize(es, i)`. */
  lemma ArchiveLayout(es: seq<File>, cs: seq<nat>)
    requires Fits(es) && Crcs(es, cs)
    ensures Archive(es, cs)[..Offset(es, |es|)] == Locals(es, cs, |es|)
    ensures Archive(es, cs)[Offset(es, |es|)..Offset(es, |es|) + CentralSize(es, |es|)] == Centrals(es, cs, |es|)
    ensures Archive(es, cs)[Offset(es, |es|) + CentralSize(es, |es|)..]
      == EndRecord(|es|, CentralSize(es, |es|), Offset(es, |es|))
  {
    var locals := Locals(es, cs, |es|);
    var centrals := Centrals(es, cs, |es|);
    var end := EndRecord(|es|, CentralSize(es, |es|), Offset(es, |es|));
    MiddlePiece(Archive(es, cs), locals, centrals, end, 0, |centrals|, centrals);
    PrefixThrough(locals + centrals, end, |locals|);
  }
}
