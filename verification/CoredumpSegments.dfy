/** Which segments of a core dump are kept, and where they go. */
module CoredumpSegments {
  import opened Divisibility

  /** File offsets and addresses are 64-bit. */
  const LIMIT: nat := 0x1_0000_0000_0000_0000

  datatype SegmentType = PT_NOTE | PT_LOAD | PT_OTHER

  datatype Phdr = Phdr(type_: SegmentType, offset: nat, vaddr: nat, filesz: nat, memsz: nat, align: nat)

  type FileMappings = set<(nat, nat)>

  function Wrap(x: nat): nat {
    x % LIMIT
  }

  function AlignUp(x: nat, align: nat): nat {
    if align != 0 && x % align != 0 then Wrap(x + align - x % align) else x
  }

  predicate MappedToFile(h: Phdr, mappings: FileMappings) {
    h.type_ == PT_LOAD && (h.vaddr, Wrap(h.vaddr + h.memsz)) in mappings
  }

  /** Header `h` behind a segment that is written at `prev`. */
  function Placed(prev: Phdr, h: Phdr, mappings: FileMappings): Phdr {
    h.(filesz := if MappedToFile(h, mappings) then 0 else h.filesz,
       offset := AlignUp(Wrap(prev.offset + prev.filesz), h.align))
  }

  function Filtered(headers: seq<Phdr>, mappings: FileMappings): (r: seq<Phdr>)
    ensures |r| == |headers|
  {
    if |headers| <= 1 then headers
    else
      var init := Filtered(headers[..|headers| - 1], mappings);
      init + [Placed(init[|init| - 1], headers[|headers| - 1], mappings)]
  }

  lemma {:induction false} FilteredNext(headers: seq<Phdr>, mappings: FileMappings, i: nat)
    requires 0 < i < |headers|
    ensures var done := Filtered(headers[..i], mappings);
            Filtered(headers[..i + 1], mappings) == done + [Placed(done[i - 1], headers[i], mappings)]
  {
    assert headers[..i + 1][..i] == headers[..i];
  }

  /**
   * Header `i` in the filtered table: without its bytes when it is loaded from a range that is listed, and at the first
   * aligned offset behind the one before it.
   */
  ghost predicate HeaderFiltered(headers: seq<Phdr>, mappings: FileMappings, out: seq<Phdr>, i: nat)
    requires 0 < i < |headers| == |out|
  {
    var h := headers[i];
    var listed := h.type_ == PT_LOAD && (h.vaddr, (h.vaddr + h.memsz) % 0x1_0000_0000_0000_0000) in mappings;
    var end := (out[i - 1].offset + out[i - 1].filesz) % 0x1_0000_0000_0000_0000;
    && out[i] == h.(offset := out[i].offset, filesz := if listed then 0 else h.filesz)
    && (h.align == 0 ==> out[i].offset == end)
    && (h.align > 0 && end + h.align <= 0x1_0000_0000_0000_0000 ==>
          end <= out[i].offset < end + h.align && out[i].offset % h.align == 0)
  }

  lemma {:induction false} FilteredSays(headers: seq<Phdr>, mappings: FileMappings, i: nat)
    requires 0 < i < |headers|
    ensures HeaderFiltered(headers, mappings, Filtered(headers, mappings), i)
  {
    var out := Filtered(headers, mappings);
    FilteredAt(headers, mappings, i);
    hide Filtered;
    var end, align := Wrap(out[i - 1].offset + out[i - 1].filesz), headers[i].align;
    if align > 0 && end + align <= LIMIT {
      AlignedBehind(end, align);
    }
  }

  lemma {:induction false} AlignedBehind(x: nat, align: nat)
    requires align > 0 && x + align <= LIMIT
    ensures x <= AlignUp(x, align) < x + align && AlignUp(x, align) % align == 0
  {
    if x % align != 0 {
      RoundedUp(x, align);
      NotWrapped(x + align - x % align);
    }
  }

  lemma {:induction false} RoundedUp(x: nat, align: nat)
    requires align > 0 && x % align != 0
    ensures x < x + align - x % align < x + align && (x + align - x % align) % align == 0
  {
    var q, r := x / align, x % align;
    assert x == align * q + r;
    assert align * q + align == align * (q + 1);
    Multiple(align, q + 1);
  }

  lemma {:induction false} NotWrapped(x: nat)
    requires x < LIMIT
    ensures Wrap(x) == x
  {
  }

  /** One header behind the one before it. */
  method Place(prev: Phdr, h: Phdr, mappings: FileMappings) returns (out: Phdr)
    ensures out == Placed(prev, h, mappings)
  {
    out := h;
    var end := Wrap(out.vaddr + out.memsz);
    if out.type_ == PT_LOAD && (out.vaddr, end) in mappings {
      out := out.(filesz := 0);
    }
    out := out.(offset := Wrap(prev.offset + prev.filesz));
    if out.align != 0 && out.offset % out.align != 0 {
      out := out.(offset := Wrap(out.offset + out.align - out.offset % out.align));
    }
  }

  method FilterSegments(headers: seq<Phdr>, mappings: FileMappings) returns (filtered: array<Phdr>)
    requires headers != []
    ensures fresh(filtered) && filtered[..] == Filtered(headers, mappings)
    ensures filtered.Length == |headers| && filtered[0] == headers[0]
    ensures forall i: nat :: 0 < i < |headers| ==> HeaderFiltered(headers, mappings, filtered[..], i)
  {
    filtered := new Phdr[|headers|](i requires 0 <= i < |headers| => headers[i]);
    assert filtered[..1] == Filtered(headers[..1], mappings);
    hide Filtered, HeaderFiltered, Placed;
    for i := 1 to |headers|
      invariant filtered[..i] == Filtered(headers[..i], mappings)
    {
      assert filtered[..i][i - 1] == filtered[i - 1];
      FilteredNext(headers, mappings, i);
      filtered[i] := Place(filtered[i - 1], headers[i], mappings);
    }
    assert headers[..|headers|] == headers;
    FilteredAt(headers, mappings, 0);
    assert filtered[0] == filtered[..][0];
    forall i: nat | 0 < i < |headers|
      ensures HeaderFiltered(headers, mappings, filtered[..], i)
    {
      FilteredSays(headers, mappings, i);
    }
  }

  // ----- what the kernel writes -----

  predicate IsAligned(h: Phdr) {
    h.align == 0 || h.offset % h.align == 0
  }

  predicate EndsInFile(h: Phdr) {
    h.offset + h.filesz < LIMIT
  }

  /** Segments lie behind each other without overlap. */
  predicate InOrder(headers: seq<Phdr>) {
    forall i :: 0 <= i < |headers| - 1 ==> headers[i].offset + headers[i].filesz <= headers[i + 1].offset
  }

  predicate WellLaid(headers: seq<Phdr>) {
    && InOrder(headers)
    && (forall i :: 0 <= i < |headers| ==> EndsInFile(headers[i]))
    && (forall i :: 0 < i < |headers| ==> IsAligned(headers[i]))
  }

  /** Rounding up to a multiple never passes a multiple that is not smaller. */
  lemma {:induction false} AlignUpIsLeast(x: nat, align: nat, y: nat)
    requires x <= y < LIMIT && (align == 0 || y % align == 0)
    ensures x <= AlignUp(x, align) <= y && (align == 0 || AlignUp(x, align) % align == 0)
  {
    if align != 0 && x % align != 0 {
      NextMultiple(x, align, y);
    }
  }

  lemma {:induction false} NextMultiple(x: int, w: int, y: int)
    requires w > 0 && x % w != 0 && x <= y && y % w == 0
    ensures x <= x + w - x % w <= y && (x + w - x % w) % w == 0
  {
    var q, k := x / w, y / w;
    Between(q, k, w, x, y);
    Multiple(w, q + 1);
  }

  lemma {:induction false} Between(q: int, k: int, w: int, x: int, y: int)
    requires w > 0 && w * q < x <= y && y == w * k
    ensures w * (q + 1) <= y
  {
    assert k <= q ==> w * k <= w * q;
    assert k >= q + 1 ==> w * k >= w * (q + 1);
  }

  /** A kept segment has its size, a dropped one none; both move towards the front of the file. */
  ghost predicate FilteredRight(h: Phdr, out: Phdr, mappings: FileMappings) {
    && out == h.(offset := out.offset, filesz := out.filesz)
    && out.filesz == (if h.type_ == PT_LOAD && (h.vaddr, (h.vaddr + h.memsz) % 0x1_0000_0000_0000_0000) in mappings
                      then 0 else h.filesz)
    && out.offset <= h.offset
  }

  lemma {:induction false} FilteredAt(headers: seq<Phdr>, mappings: FileMappings, i: nat)
    requires i < |headers|
    ensures var out := Filtered(headers, mappings);
            out[i] == if i == 0 then headers[0] else Placed(out[i - 1], headers[i], mappings)
  {
    if |headers| > 1 && i < |headers| - 1 {
      FilteredAt(headers[..|headers| - 1], mappings, i);
    }
  }

  lemma {:induction false} PlacedRight(h0: Phdr, out0: Phdr, h: Phdr, mappings: FileMappings)
    requires EndsInFile(h0) && EndsInFile(h) && IsAligned(h) && h0.offset + h0.filesz <= h.offset
    requires out0.offset <= h0.offset && out0.filesz <= h0.filesz
    ensures var out := Placed(out0, h, mappings);
            FilteredRight(h, out, mappings) && EndsInFile(out) && IsAligned(out)
              && out0.offset + out0.filesz <= out.offset
  {
    hide AlignUp, Wrap, MappedToFile;
    NotWrapped(out0.offset + out0.filesz);
    AlignUpIsLeast(out0.offset + out0.filesz, h.align, h.offset);
    ListedRange(h, mappings);
  }

  lemma {:induction false} ListedRange(h: Phdr, mappings: FileMappings)
    ensures MappedToFile(h, mappings) <==>
              h.type_ == PT_LOAD && (h.vaddr, (h.vaddr + h.memsz) % 0x1_0000_0000_0000_0000) in mappings
  {
  }

  lemma {:induction false} FilteredAtRight(headers: seq<Phdr>, mappings: FileMappings, i: nat)
    requires WellLaid(headers) && i < |headers|
    ensures var out := Filtered(headers, mappings);
            && EndsInFile(out[i]) && out[i].offset <= headers[i].offset && out[i].filesz <= headers[i].filesz
            && (i == 0 ==> out[0] == headers[0])
            && (i > 0 ==> FilteredRight(headers[i], out[i], mappings) && IsAligned(out[i])
                          && out[i - 1].offset + out[i - 1].filesz <= out[i].offset)
  {
    FilteredAt(headers, mappings, i);
    if i > 0 {
      FilteredAtRight(headers, mappings, i - 1);
      assert headers[i - 1].offset + headers[i - 1].filesz <= headers[i - 1 + 1].offset;
      hide AlignUp, MappedToFile;
      PlacedRight(headers[i - 1], Filtered(headers, mappings)[i - 1], headers[i], mappings);
    }
  }

  /** Filtering keeps the order, the alignment and the disjointness of the segments. */
  lemma {:induction false} FilteredIsWellLaid(headers: seq<Phdr>, mappings: FileMappings)
    requires headers != [] && WellLaid(headers)
    ensures var out := Filtered(headers, mappings);
            && WellLaid(out) && out[0] == headers[0]
            && forall i :: 0 < i < |headers| ==> FilteredRight(headers[i], out[i], mappings)
  {
    var out := Filtered(headers, mappings);
    hide Filtered, FilteredRight, IsAligned, EndsInFile;
    forall i | 0 <= i < |out|
      ensures EndsInFile(out[i]) && (i == 0 ==> out[0] == headers[0])
      ensures i > 0 ==> FilteredRight(headers[i], out[i], mappings) && IsAligned(out[i])
    {
      FilteredAtRight(headers, mappings, i);
    }
    forall i | 0 <= i < |out| - 1
      ensures out[i].offset + out[i].filesz <= out[i + 1].offset
    {
      FilteredAtRight(headers, mappings, i + 1);
    }
  }
}
