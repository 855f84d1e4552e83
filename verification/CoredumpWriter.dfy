/** Writing a core dump without the segments that are mapped from files, from a source that is read once. */
module CoredumpWriter {
  import opened CoredumpSegments
  import opened CoredumpStreams
  import opened Slices

  const MAX_COREDUMP_SIZE: nat := 256 * 1024 * 1024

  /** The fields of an ELF header; `valid` sums up the checks of its magic, class, version, type and sizes. */
  datatype Ehdr = Ehdr(valid: bool, phoff: nat, phnum: nat)

  /** The layout of the headers: sizes, and how they are read and written. */
  datatype Format = Format(ehdrSize: nat, phdrSize: nat, ehdr: seq<bv8> -> Ehdr, phdr: seq<bv8> -> Phdr,
                           bytes: Phdr -> seq<bv8>)

  ghost predicate FormatOk(f: Format) {
    f.phdrSize > 0 && forall h :: |f.bytes(h)| == f.phdrSize
  }

  function ParseHeaders(f: Format, bytes: seq<bv8>): seq<Phdr> {
    if f.phdrSize == 0 || |bytes| < f.phdrSize then []
    else [f.phdr(bytes[..f.phdrSize])] + ParseHeaders(f, bytes[f.phdrSize..])
  }

  lemma {:induction false} ParsedCount(f: Format, bytes: seq<bv8>, n: nat)
    requires f.phdrSize > 0 && |bytes| == f.phdrSize * n
    ensures |ParseHeaders(f, bytes)| == n
  {
    if n > 0 {
      assert f.phdrSize * n == f.phdrSize * (n - 1) + f.phdrSize;
      ParsedCount(f, bytes[f.phdrSize..], n - 1);
    } else {
      assert f.phdrSize * n == 0;
    }
  }

  // ----- what a readable dump looks like -----

  function HeaderOf(f: Format, data: seq<bv8>): Ehdr
    requires f.ehdrSize <= |data|
  {
    f.ehdr(data[..f.ehdrSize])
  }

  /** The program headers lie inside the data, behind the ELF header. */
  predicate HasHeaders(f: Format, data: seq<bv8>) {
    && f.ehdrSize <= |data| && HeaderOf(f, data).valid && f.ehdrSize <= HeaderOf(f, data).phoff
    && HeaderOf(f, data).phoff + f.phdrSize * HeaderOf(f, data).phnum <= |data|
  }

  function HeadersEnd(f: Format, data: seq<bv8>): nat
    requires f.ehdrSize <= |data|
  {
    HeaderOf(f, data).phoff + f.phdrSize * HeaderOf(f, data).phnum
  }

  function Headers(f: Format, data: seq<bv8>): seq<Phdr>
    requires HasHeaders(f, data)
  {
    ParseHeaders(f, data[HeaderOf(f, data).phoff..HeadersEnd(f, data)])
  }

  /** The first segment is the note, behind the program headers. */
  predicate HasNote(f: Format, data: seq<bv8>) {
    && HasHeaders(f, data) && Headers(f, data) != []
    && Headers(f, data)[0].type_ == PT_NOTE && HeadersEnd(f, data) <= Headers(f, data)[0].offset
    && Headers(f, data)[0].offset + Headers(f, data)[0].filesz <= |data|
  }

  function NoteOf(f: Format, data: seq<bv8>): seq<bv8>
    requires HasNote(f, data)
  {
    data[Headers(f, data)[0].offset..Headers(f, data)[0].offset + Headers(f, data)[0].filesz]
  }

  method ReadHeaders(reader: FdReader, f: Format) returns (ok: bool, elf: seq<bv8>, headers: seq<Phdr>)
    requires reader.Valid() && reader.bytesRead == 0 && f.phdrSize > 0
    modifies reader, reader.fd
    ensures ok ==> reader.Valid() && HasHeaders(f, reader.fd.data) && reader.fd.failed == old(reader.fd.failed)
    ensures ok ==> |elf| == f.ehdrSize && elf == reader.fd.data[..f.ehdrSize] && headers == Headers(f, reader.fd.data)
    ensures ok ==> reader.bytesRead == HeadersEnd(f, reader.fd.data)
    ensures !ok ==> reader.fd.failed || !HasHeaders(f, reader.fd.data)
  {
    headers := [];
    ok, elf := reader.Read(f.ehdrSize);
    if !ok {
      return;
    }
    assert elf == reader.fd.data[..f.ehdrSize];
    var ehdr := f.ehdr(elf);
    if !ehdr.valid {
      return false, elf, headers;
    }
    ok := reader.Seek(ehdr.phoff);
    if !ok {
      return;
    }
    var table;
    ok, table := reader.Read(f.phdrSize * ehdr.phnum);
    if ok {
      headers := ParseHeaders(f, table);
    }
  }

  /** Reads everything up to the end of the note; when no read fails this works exactly on data with a note. */
  method ReadUntilNote(reader: FdReader, f: Format)
    returns (ok: bool, elf: seq<bv8>, headers: seq<Phdr>, note: seq<bv8>)
    requires reader.Valid() && reader.bytesRead == 0 && f.phdrSize > 0
    modifies reader, reader.fd
    ensures ok ==> reader.Valid() && HasNote(f, reader.fd.data) && reader.fd.failed == old(reader.fd.failed)
    ensures ok ==> |elf| == f.ehdrSize && elf == reader.fd.data[..f.ehdrSize] && headers == Headers(f, reader.fd.data)
                   && note == NoteOf(f, reader.fd.data)
    ensures ok ==> headers != [] && reader.bytesRead == headers[0].offset + headers[0].filesz
    ensures !ok ==> reader.fd.failed || !HasNote(f, reader.fd.data)
  {
    hide HasHeaders, HeadersEnd, Headers;
    note := [];
    ok, elf, headers := ReadHeaders(reader, f);
    if !ok {
      return;
    }
    if |headers| < 1 || headers[0].type_ != PT_NOTE {
      return false, elf, headers, note;
    }
    ok := reader.Seek(headers[0].offset);
    if !ok {
      return;
    }
    ok, note := reader.Read(headers[0].filesz);
  }

  // ----- what is written -----

  function HeaderBytes(f: Format, out: seq<Phdr>): seq<bv8> {
    if out == [] then [] else HeaderBytes(f, out[..|out| - 1]) + f.bytes(out[|out| - 1])
  }

  lemma {:induction false} HeaderBytesSize(f: Format, out: seq<Phdr>)
    requires FormatOk(f)
    ensures |HeaderBytes(f, out)| == f.phdrSize * |out|
  {
    if out != [] {
      HeaderBytesSize(f, out[..|out| - 1]);
      assert f.phdrSize * |out| == f.phdrSize * (|out| - 1) + f.phdrSize;
    }
  }

  /** The bytes of the segment are in the dump, where the new header says. */
  predicate Copied(content: seq<bv8>, out: Phdr, data: seq<bv8>, h: Phdr) {
    out.filesz > 0 ==>
      && out.offset + out.filesz <= |content| && h.offset + out.filesz <= |data|
      && content[out.offset..out.offset + out.filesz] == data[h.offset..h.offset + out.filesz]
  }

  ghost predicate CopiedUpTo(content: seq<bv8>, out: seq<Phdr>, data: seq<bv8>, headers: seq<Phdr>, n: nat)
    requires n <= |out| == |headers|
  {
    forall i :: 0 <= i < n ==> Copied(content, out[i], data, headers[i])
  }

  function Preamble(f: Format, data: seq<bv8>, out: seq<Phdr>): seq<bv8>
    requires f.ehdrSize <= |data|
  {
    data[..f.ehdrSize] + HeaderBytes(f, out)
  }

  /** A core dump of the segments in `out`. */
  ghost predicate DumpRight(f: Format, content: seq<bv8>, data: seq<bv8>, mappings: FileMappings)
    requires HasHeaders(f, data)
  {
    var out := Filtered(Headers(f, data), mappings);
    && Preamble(f, data, out) <= content
    && CopiedUpTo(content, out, data, Headers(f, data), |out|)
  }

  // ----- what a dump holds, told by its bytes -----

  /** Where row `k` of a table with rows of this width begins. */
  function Row(width: nat, k: nat): nat {
    width * k
  }

  lemma {:induction false} RowInside(width: nat, k: nat, n: nat)
    requires k < n
    ensures Row(width, k) + width == Row(width, k + 1) <= Row(width, n)
  {
    if n == k + 1 {
      assert width * n == width * k + width;
    } else {
      RowInside(width, k, n - 1);
      assert width * n == width * (n - 1) + width;
    }
  }

  /** `headers` are read one behind the other from `from` on. */
  ghost predicate TableRead(f: Format, data: seq<bv8>, from: nat, headers: seq<Phdr>) {
    forall k :: 0 <= k < |headers| ==> HeaderRead(f, data, from + Row(f.phdrSize, k), headers[k])
  }

  ghost predicate HeaderRead(f: Format, data: seq<bv8>, at: nat, h: Phdr) {
    at + f.phdrSize <= |data| && h == f.phdr(data[at..at + f.phdrSize])
  }

  /** `out` are written one behind the other from `from` on. */
  ghost predicate TableWritten(f: Format, content: seq<bv8>, from: nat, out: seq<Phdr>) {
    forall k :: 0 <= k < |out| ==> HeaderWritten(f, content, from + Row(f.phdrSize, k), out[k])
  }

  ghost predicate HeaderWritten(f: Format, content: seq<bv8>, at: nat, h: Phdr) {
    at + f.phdrSize <= |content| && content[at..at + f.phdrSize] == f.bytes(h)
  }

  /**
   * Segment `i` of the data is in the dump, at an offset that is not greater than before, unless it is loaded from a
   * range that is listed; then the dump says that it has no bytes.
   */
  ghost predicate SegmentHeld(content: seq<bv8>, out: seq<Phdr>, data: seq<bv8>, headers: seq<Phdr>,
                              ranges: FileMappings, i: nat)
    requires i < |headers| == |out|
  {
    var h := headers[i];
    var listed := i > 0 && h.type_ == PT_LOAD && (h.vaddr, (h.vaddr + h.memsz) % 0x1_0000_0000_0000_0000) in ranges;
    && out[i].offset <= h.offset && out[i] == h.(offset := out[i].offset, filesz := if listed then 0 else h.filesz)
    && (!listed && h.filesz > 0 ==>
          && out[i].offset + h.filesz <= |content| && h.offset + h.filesz <= |data|
          && content[out[i].offset..out[i].offset + h.filesz] == data[h.offset..h.offset + h.filesz])
  }

  /** The dump is the ELF header, a table of the program headers, and the segments where that table says. */
  ghost predicate DumpHolds(f: Format, content: seq<bv8>, data: seq<bv8>, ranges: FileMappings, headers: seq<Phdr>,
                            out: seq<Phdr>) {
    && f.ehdrSize <= |data| && |headers| == |out| == f.ehdr(data[..f.ehdrSize]).phnum
    && TableRead(f, data, f.ehdr(data[..f.ehdrSize]).phoff, headers)
    && data[..f.ehdrSize] <= content && TableWritten(f, content, f.ehdrSize, out)
    && forall i :: 0 <= i < |out| ==> SegmentHeld(content, out, data, headers, ranges, i)
  }

  lemma {:induction false} ParsedAt(f: Format, bytes: seq<bv8>, n: nat, k: nat)
    requires f.phdrSize > 0 && |bytes| == Row(f.phdrSize, n) && k < n
    ensures |ParseHeaders(f, bytes)| == n && HeaderRead(f, bytes, Row(f.phdrSize, k), ParseHeaders(f, bytes)[k])
  {
    ParsedCount(f, bytes, n);
    RowInside(f.phdrSize, 0, n);
    RowInside(f.phdrSize, n - 1, n);
    RowInside(f.phdrSize, k, n);
    if k > 0 {
      RowInside(f.phdrSize, k - 1, n);
      assert Row(f.phdrSize, 0) == 0;
      hide Row;
      ParsedAt(f, bytes[f.phdrSize..], n - 1, k - 1);
      var lo := Row(f.phdrSize, k - 1);
      assert bytes[f.phdrSize..] == bytes[f.phdrSize..|bytes|];
      SliceOfSlice(bytes, f.phdrSize, |bytes|, lo, lo + f.phdrSize);
    }
  }

  lemma {:induction false} HeadersAreRead(f: Format, data: seq<bv8>)
    requires f.phdrSize > 0 && HasHeaders(f, data)
    ensures |Headers(f, data)| == HeaderOf(f, data).phnum
    ensures TableRead(f, data, HeaderOf(f, data).phoff, Headers(f, data))
  {
    var from, n := HeaderOf(f, data).phoff, HeaderOf(f, data).phnum;
    var to := HeadersEnd(f, data);
    assert to == from + Row(f.phdrSize, n);
    ParsedCount(f, data[from..to], n);
    hide ParseHeaders, Row;
    forall k | 0 <= k < n
      ensures HeaderRead(f, data, from + Row(f.phdrSize, k), Headers(f, data)[k])
    {
      ParsedAt(f, data[from..to], n, k);
      RowInside(f.phdrSize, k, n);
      SliceOfSlice(data, from, to, Row(f.phdrSize, k), Row(f.phdrSize, k) + f.phdrSize);
    }
  }

  lemma {:induction false} HeaderBytesAt(f: Format, out: seq<Phdr>, k: nat)
    requires FormatOk(f) && k < |out|
    ensures HeaderWritten(f, HeaderBytes(f, out), Row(f.phdrSize, k), out[k])
  {
    var last := |out| - 1;
    HeaderBytesSize(f, out);
    HeaderBytesSize(f, out[..last]);
    RowInside(f.phdrSize, k, |out|);
    hide FormatOk;
    if k < last {
      HeaderBytesAt(f, out[..last], k);
      var lo := Row(f.phdrSize, k);
      hide Row;
      assert HeaderBytes(f, out)[lo..lo + f.phdrSize] == HeaderBytes(f, out[..last])[lo..lo + f.phdrSize];
    }
  }

  lemma {:induction false} HeadersAreWritten(f: Format, data: seq<bv8>, out: seq<Phdr>, content: seq<bv8>)
    requires FormatOk(f) && f.ehdrSize <= |data| && Preamble(f, data, out) <= content
    ensures TableWritten(f, content, f.ehdrSize, out) && data[..f.ehdrSize] <= content
  {
    var table := HeaderBytes(f, out);
    assert content[f.ehdrSize..f.ehdrSize + |table|] == table;
    hide HeaderBytes, Row, FormatOk;
    forall k | 0 <= k < |out|
      ensures HeaderWritten(f, content, f.ehdrSize + Row(f.phdrSize, k), out[k])
    {
      HeaderBytesAt(f, out, k);
      SliceOfSlice(content, f.ehdrSize, f.ehdrSize + |table|, Row(f.phdrSize, k), Row(f.phdrSize, k) + f.phdrSize);
    }
  }

  /** What the dump of the filtered segments holds. */
  lemma {:induction false} RightHolds(f: Format, content: seq<bv8>, data: seq<bv8>, mappings: FileMappings)
    requires FormatOk(f) && HasHeaders(f, data) && Headers(f, data) != [] && WellLaid(Headers(f, data))
    requires DumpRight(f, content, data, mappings)
    ensures DumpHolds(f, content, data, mappings, Headers(f, data), Filtered(Headers(f, data), mappings))
  {
    var headers := Headers(f, data);
    var out := Filtered(headers, mappings);
    HeadersAreRead(f, data);
    HeadersAreWritten(f, data, out, content);
    hide Filtered, Headers, TableRead, TableWritten, SegmentHeld, HasHeaders;
    SegmentsHeld(content, data, headers, mappings, out);
  }

  lemma {:induction false} RightIsDumped(f: Format, content: seq<bv8>, data: seq<bv8>, mappings: FileMappings,
                                         size: nat)
    requires FormatOk(f) && HasNote(f, data) && WellLaid(Headers(f, data))
    requires DumpRight(f, content, data, mappings) && size == ExpectedSize(Filtered(Headers(f, data), mappings))
    ensures Dumped(f, content, data, mappings, size)
  {
    assert HasHeaders(f, data) && Headers(f, data) != [];
    hide Headers, HasHeaders, HasNote, HeaderOf, DumpRight, DumpHolds, Filtered;
    RightHolds(f, content, data, mappings);
    LastEnds(Headers(f, data), mappings, size);
  }

  lemma {:induction false} LastEnds(headers: seq<Phdr>, mappings: FileMappings, size: nat)
    requires headers != [] && WellLaid(headers) && size == ExpectedSize(Filtered(headers, mappings))
    ensures EndsAt(Filtered(headers, mappings), size)
  {
    FilteredAtRight(headers, mappings, |headers| - 1);
    hide Filtered, WellLaid;
  }

  lemma {:induction false} SegmentsHeld(content: seq<bv8>, data: seq<bv8>, headers: seq<Phdr>, mappings: FileMappings,
                                        out: seq<Phdr>)
    requires headers != [] && WellLaid(headers) && out == Filtered(headers, mappings)
    requires CopiedUpTo(content, out, data, headers, |out|)
    ensures forall i :: 0 <= i < |out| ==> SegmentHeld(content, out, data, headers, mappings, i)
  {
    FilteredIsWellLaid(headers, mappings);
    hide Filtered, WellLaid, FilteredRight, Copied;
    forall i | 0 <= i < |out|
      ensures SegmentHeld(content, out, data, headers, mappings, i)
    {
      assert Copied(content, out[i], data, headers[i]);
      assert i > 0 ==> FilteredRight(headers[i], out[i], mappings);
      OneSegmentHeld(content, out, data, headers, mappings, i);
    }
  }

  lemma {:induction false} OneSegmentHeld(content: seq<bv8>, out: seq<Phdr>, data: seq<bv8>, headers: seq<Phdr>,
                                          mappings: FileMappings, i: nat)
    requires i < |headers| == |out| && Copied(content, out[i], data, headers[i])
    requires if i == 0 then out[0] == headers[0] else FilteredRight(headers[i], out[i], mappings)
    ensures SegmentHeld(content, out, data, headers, mappings, i)
  {
  }

  /** Some dump of the data that has `size` bytes when its last segment has any. */
  ghost predicate Dumped(f: Format, content: seq<bv8>, data: seq<bv8>, ranges: FileMappings, size: int) {
    exists headers, out :: DumpHolds(f, content, data, ranges, headers, out) && EndsAt(out, size)
  }

  ghost predicate EndsAt(out: seq<Phdr>, size: int) {
    out != [] && size == out[|out| - 1].offset + out[|out| - 1].filesz
  }

  /** A kept segment is cut off by the end of the data. */
  ghost predicate Truncated(out: seq<Phdr>, data: seq<bv8>, headers: seq<Phdr>)
    requires |out| == |headers|
  {
    exists i :: 0 < i < |out| && out[i].filesz > 0 && headers[i].offset + out[i].filesz > |data|
  }

  lemma {:induction false} AppendKeeps(content: seq<bv8>, pos: nat, buf: seq<bv8>, out: seq<Phdr>, data: seq<bv8>,
                                       headers: seq<Phdr>, n: nat)
    requires pos >= |content| && n <= |out| == |headers| && CopiedUpTo(content, out, data, headers, n)
    ensures CopiedUpTo(Overlaid(content, pos, buf), out, data, headers, n)
  {
    var after := Overlaid(content, pos, buf);
    forall i | 0 <= i < n
      ensures Copied(after, out[i], data, headers[i])
    {
      assert Copied(content, out[i], data, headers[i]);
      if out[i].filesz > 0 {
        var a, b := out[i].offset, out[i].offset + out[i].filesz;
        assert after[..|content|][a..b] == content[a..b];
      }
    }
  }

  /** The next program header goes right behind the ones before it. */
  lemma {:induction false} HeaderAppended(f: Format, elf: seq<bv8>, out: seq<Phdr>, i: nat)
    requires FormatOk(f) && i < |out|
    ensures |elf| + Row(f.phdrSize, i) == |elf + HeaderBytes(f, out[..i])|
    ensures Overlaid(elf + HeaderBytes(f, out[..i]), |elf| + Row(f.phdrSize, i), f.bytes(out[i])) ==
              elf + HeaderBytes(f, out[..i + 1])
  {
    hide Overlaid;
    var done, buf := HeaderBytes(f, out[..i]), f.bytes(out[i]);
    HeaderBytesSize(f, out[..i]);
    assert out[..i + 1][..i] == out[..i];
    assert HeaderBytes(f, out[..i + 1]) == done + buf;
    hide HeaderBytes, FormatOk;
    OverlaidAtEnd(elf + done, buf);
    assert elf + done + buf == elf + (done + buf);
  }

  lemma {:induction false} NoHeadersYet(f: Format, elf: seq<bv8>, out: seq<Phdr>)
    ensures Overlaid([], 0, elf) == elf + HeaderBytes(f, out[..0]) && out[..|out|] == out
  {
    OverlaidAtEnd([], elf);
    hide Overlaid;
    assert [] + elf == elf && elf + [] == elf;
  }

  /** Writes the ELF header and the program headers one behind the other. */
  method WriteHeaders(dest: OutFile, f: Format, elf: seq<bv8>, out: seq<Phdr>) returns (ok: bool)
    requires FormatOk(f) && dest.content == [] && dest.pos == 0 && |elf| == f.ehdrSize
    modifies dest
    ensures ok ==> dest.content == elf + HeaderBytes(f, out) && dest.failed == old(dest.failed)
    ensures !ok ==> dest.failed
  {
    NoHeadersYet(f, elf, out);
    hide Overlaid, HeaderBytes, FormatOk, Row;
    ok := dest.WriteFully(elf);
    if !ok {
      return;
    }
    for i := 0 to |out|
      invariant dest.content == elf + HeaderBytes(f, out[..i]) && dest.failed == old(dest.failed)
    {
      HeaderAppended(f, elf, out, i);
      ok := dest.Seek(|elf| + Row(f.phdrSize, i));
      if !ok {
        return;
      }
      ok := dest.WriteFully(f.bytes(out[i]));
      if !ok {
        return;
      }
    }
    ok := true;
  }

  // ----- the copy loop -----

  /** Segment `i` and everything behind it can still be reached and placed. */
  ghost predicate AtSegment(content: seq<bv8>, bytesRead: nat, out: seq<Phdr>, headers: seq<Phdr>, i: nat)
    requires 0 < i <= |out| == |headers|
  {
    && bytesRead <= headers[i - 1].offset + headers[i - 1].filesz
    && |content| <= out[i - 1].offset + out[i - 1].filesz
  }

  lemma {:induction false} NextSegment(headers: seq<Phdr>, mappings: FileMappings, i: nat)
    requires WellLaid(headers) && 0 < i < |headers|
    ensures var out := Filtered(headers, mappings);
            && headers[i - 1].offset + headers[i - 1].filesz <= headers[i].offset
            && out[i - 1].offset + out[i - 1].filesz <= out[i].offset && out[i].filesz <= headers[i].filesz
  {
    FilteredAtRight(headers, mappings, i);
    assert headers[i - 1].offset + headers[i - 1].filesz <= headers[i - 1 + 1].offset;
  }

  /** One kept segment, whatever pieces it arrives in. */
  method CopySegment(reader: FdReader, dest: OutFile, h: Phdr, out: Phdr) returns (ok: bool)
    requires reader.Valid()
    modifies reader, reader.fd, dest
    ensures ok ==> reader.Valid() && reader.bytesRead == h.offset + out.filesz <= |reader.fd.data|
                   && reader.fd.failed == old(reader.fd.failed) && dest.failed == old(dest.failed)
                   && dest.content ==
                        Overlaid(old(dest.content), out.offset, reader.fd.data[h.offset..h.offset + out.filesz])
    ensures !ok ==>
              || reader.fd.failed || dest.failed
              || h.offset < old(reader.bytesRead) || h.offset + out.filesz > |reader.fd.data|
  {
    ok := reader.Seek(h.offset);
    if !ok {
      return;
    }
    ok := dest.Seek(out.offset);
    if !ok {
      return;
    }
    ok := reader.CopyTo(dest, out.filesz);
  }

  lemma {:induction false} SegmentCopied(content: seq<bv8>, out: seq<Phdr>, data: seq<bv8>, headers: seq<Phdr>, i: nat)
    requires i < |out| == |headers| && CopiedUpTo(content, out, data, headers, i)
    requires out[i].filesz > 0 && |content| <= out[i].offset && headers[i].offset + out[i].filesz <= |data|
    ensures var after := Overlaid(content, out[i].offset, data[headers[i].offset..headers[i].offset + out[i].filesz]);
            CopiedUpTo(after, out, data, headers, i + 1) && |after| == out[i].offset + out[i].filesz
  {
    var buf := data[headers[i].offset..headers[i].offset + out[i].filesz];
    AppendKeeps(content, out[i].offset, buf, out, data, headers, i);
  }

  /** Copies the segments behind the note; with segments laid out in order the source never has to go back. */
  method CopySegments(reader: FdReader, dest: OutFile, headers: seq<Phdr>, out: seq<Phdr>, ghost mappings: FileMappings)
    returns (ok: bool)
    requires reader.Valid() && headers != [] && out == Filtered(headers, mappings)
    requires WellLaid(headers) ==> CopiedUpTo(dest.content, out, reader.fd.data, headers, 1)
                                   && AtSegment(dest.content, reader.bytesRead, out, headers, 1)
    modifies reader, reader.fd, dest
    ensures ok && WellLaid(headers) ==> old(dest.content) <= dest.content
                                        && CopiedUpTo(dest.content, out, reader.fd.data, headers, |out|)
                                        && |dest.content| <= out[|out| - 1].offset + out[|out| - 1].filesz
    ensures !ok && WellLaid(headers) ==> reader.fd.failed || dest.failed || Truncated(out, reader.fd.data, headers)
  {
    hide WellLaid, Filtered, Overlaid, CopiedUpTo;
    for i := 1 to |out|
      invariant reader.Valid()
      invariant WellLaid(headers) ==> old(dest.content) <= dest.content
                                      && CopiedUpTo(dest.content, out, reader.fd.data, headers, i)
                                      && AtSegment(dest.content, reader.bytesRead, out, headers, i)
    {
      ghost var content := dest.content;
      if WellLaid(headers) {
        NextSegment(headers, mappings, i);
      }
      if out[i].filesz > 0 {
        ok := CopySegment(reader, dest, headers[i], out[i]);
        if !ok {
          return;
        }
        if WellLaid(headers) {
          SegmentCopied(content, out, reader.fd.data, headers, i);
        }
      } else if WellLaid(headers) {
        NothingToCopy(content, out, reader.fd.data, headers, i);
      }
    }
    ok := true;
  }

  lemma {:induction false} NothingToCopy(content: seq<bv8>, out: seq<Phdr>, data: seq<bv8>, headers: seq<Phdr>, i: nat)
    requires i < |out| == |headers| && CopiedUpTo(content, out, data, headers, i) && out[i].filesz == 0
    ensures CopiedUpTo(content, out, data, headers, i + 1)
  {
  }

  // ----- the whole dump -----

  /** The ranges listed in the FILE entry of the note, when there is one. */
  datatype MappingsResult = NoFileNote | Mappings(ranges: FileMappings)

  function SizeLimit(freeDiskSpace: int): int {
    if freeDiskSpace / 20 < MAX_COREDUMP_SIZE then freeDiskSpace / 20 else MAX_COREDUMP_SIZE
  }

  /** A twentieth of the free space, but never more than 256 MiB. */
  lemma {:induction false} SizeLimitIs(freeDiskSpace: nat)
    ensures var limit := SizeLimit(freeDiskSpace);
            0 <= limit <= 0x1000_0000 && limit * 20 <= freeDiskSpace
              && (limit == 0x1000_0000 || freeDiskSpace < (limit + 1) * 20)
  {
  }

  function ExpectedSize(out: seq<Phdr>): nat
    requires out != []
  {
    Wrap(out[|out| - 1].offset + out[|out| - 1].filesz)
  }

  /** Why there may be no dump although no read, seek or write has failed. */
  ghost predicate Refused(f: Format, data: seq<bv8>, mappingsOf: seq<bv8> -> MappingsResult, freeDiskSpace: int,
                          procFilesWritten: bool) {
    || !procFilesWritten || !HasNote(f, data) || mappingsOf(NoteOf(f, data)).NoFileNote? || freeDiskSpace < 0
    || (var out := Filtered(Headers(f, data), mappingsOf(NoteOf(f, data)).ranges);
        ExpectedSize(out) > SizeLimit(freeDiskSpace) || Truncated(out, data, Headers(f, data)))
  }

  lemma {:induction false} PreambleFits(f: Format, data: seq<bv8>, out: seq<Phdr>)
    requires FormatOk(f) && HasNote(f, data) && |out| == |Headers(f, data)|
    ensures |Preamble(f, data, out)| <= Headers(f, data)[0].offset
  {
    HeaderBytesSize(f, out);
    ParsedCount(f, data[HeaderOf(f, data).phoff..HeadersEnd(f, data)], HeaderOf(f, data).phnum);
  }

  lemma {:induction false} NoteCopied(f: Format, data: seq<bv8>, out: seq<Phdr>, mappings: FileMappings)
    requires FormatOk(f) && HasNote(f, data) && out == Filtered(Headers(f, data), mappings)
    ensures var content := Overlaid(Preamble(f, data, out), out[0].offset, NoteOf(f, data));
            && Preamble(f, data, out) <= content && CopiedUpTo(content, out, data, Headers(f, data), 1)
            && AtSegment(content, out[0].offset + out[0].filesz, out, Headers(f, data), 1)
  {
    FilteredAt(Headers(f, data), mappings, 0);
    PreambleFits(f, data, out);
  }

  lemma {:induction false} DumpDone(f: Format, begun: seq<bv8>, content: seq<bv8>, data: seq<bv8>,
                                    mappings: FileMappings)
    requires HasNote(f, data)
    requires var out := Filtered(Headers(f, data), mappings);
             Preamble(f, data, out) <= begun <= content && CopiedUpTo(content, out, data, Headers(f, data), |out|)
    ensures DumpRight(f, content, data, mappings)
  {
  }

  /** Everything that is written once the headers are filtered. */
  method WriteDump(reader: FdReader, dest: OutFile, f: Format, elf: seq<bv8>, note: seq<bv8>, headers: seq<Phdr>,
                   out: seq<Phdr>, ghost mappings: FileMappings)
    returns (ok: bool)
    requires reader.Valid() && FormatOk(f) && dest.content == [] && dest.pos == 0 && HasNote(f, reader.fd.data)
    requires |elf| == f.ehdrSize && elf == reader.fd.data[..f.ehdrSize] && note == NoteOf(f, reader.fd.data)
    requires headers == Headers(f, reader.fd.data) && headers != [] && out == Filtered(headers, mappings)
    requires reader.bytesRead == headers[0].offset + headers[0].filesz
    modifies reader, reader.fd, dest
    ensures ok && WellLaid(headers) ==> DumpRight(f, dest.content, reader.fd.data, mappings)
                                        && |dest.content| <= out[|out| - 1].offset + out[|out| - 1].filesz
    ensures !ok && WellLaid(headers) ==> reader.fd.failed || dest.failed || Truncated(out, reader.fd.data, headers)
  {
    hide Filtered, WellLaid, Overlaid, CopiedUpTo, AtSegment, HasNote, NoteOf, HasHeaders, Headers, HeaderOf,
         HeaderBytes, Truncated, DumpRight;
    ghost var data := reader.fd.data;
    ok := WriteHeaders(dest, f, elf, out);
    if !ok {
      return;
    }
    ok := dest.Seek(out[0].offset);
    if !ok {
      return;
    }
    ok := dest.WriteFully(note);
    if !ok {
      return;
    }
    NoteCopied(f, data, out, mappings);
    FilteredAt(headers, mappings, 0);
    ghost var begun := dest.content;
    ok := CopySegments(reader, dest, headers, out, mappings);
    if ok && WellLaid(headers) {
      DumpDone(f, begun, dest.content, data, mappings);
    }
  }

  /**
   * With segments laid out in order the dump holds the headers and, unchanged, the note and every segment that is not
   * mapped from a file; `procFilesWritten` says whether the auxiliary vector and the maps could be written beforehand.
   * Short of failing reads and writes there is a dump unless it is refused for a reason in the data.
   */
  method WriteCoredumpToFD(reader: FdReader, dest: OutFile, f: Format, mappingsOf: seq<bv8> -> MappingsResult,
                           freeDiskSpace: int, procFilesWritten: bool)
    returns (size: int)
    requires reader.Valid() && reader.bytesRead == 0 && FormatOk(f) && dest.content == [] && dest.pos == 0
    modifies reader, reader.fd, dest
    ensures size >= -1
    ensures size != -1 ==> HasNote(f, reader.fd.data) && mappingsOf(NoteOf(f, reader.fd.data)).Mappings?
    ensures size != -1 && WellLaid(Headers(f, reader.fd.data)) ==>
              && DumpRight(f, dest.content, reader.fd.data, mappingsOf(NoteOf(f, reader.fd.data)).ranges)
              && Dumped(f, dest.content, reader.fd.data, mappingsOf(NoteOf(f, reader.fd.data)).ranges, size)
              && |dest.content| <= size <= SizeLimit(freeDiskSpace)
    ensures size == -1 ==>
              reader.fd.failed || dest.failed || Refused(f, reader.fd.data, mappingsOf, freeDiskSpace, procFilesWritten)
                           || !WellLaid(Headers(f, reader.fd.data))
  {
    hide Filtered, WellLaid, HasNote, NoteOf, HasHeaders, Headers, Truncated, DumpRight;
    var ok, elf, headers, note := ReadUntilNote(reader, f);
    if !ok {
      return -1;
    }
    var found := mappingsOf(note);
    if found.NoFileNote? {
      return -1;
    }
    var filtered := FilterSegments(headers, found.ranges);
    var out := filtered[..];
    if freeDiskSpace < 0 {
      return -1;
    }
    var expected := ExpectedSize(out);
    if expected > SizeLimit(freeDiskSpace) {
      return -1;
    }
    if !procFilesWritten {
      return -1;
    }
    ok := WriteDump(reader, dest, f, elf, note, headers, out, found.ranges);
    if !ok {
      return -1;
    }
    if WellLaid(headers) {
      FilteredAtRight(headers, found.ranges, |headers| - 1);
      RightIsDumped(f, dest.content, reader.fd.data, found.ranges, expected);
    }
    return expected;
  }
}
