/** Getting and setting boot flags in the RW_NVRAM section of the flash. */
module Vbnv {
  import opened Divisibility
  import opened Flash
  import opened Slices
  import opened VbnvRecords
  import opened VbnvFields
  import opened VbnvLog

  /** Where the flash map puts the section. */
  datatype Area = NoArea | Area(offset: nat, size: nat)

  predicate InFlash(dev: FlashDevice, area: Area) {
    area.Area? ==> area.offset + area.size <= dev.mem.Length
  }

  /** At least one record and nothing but whole records. */
  predicate Usable(area: Area) {
    area.Area? && area.size >= VB_NVDATA_SIZE && area.size % VB_NVDATA_SIZE == 0
  }

  function LogOf(mem: seq<bv8>, area: Area): (log: Log)
    requires Usable(area) && area.offset + area.size <= |mem|
    ensures log != []
  {
    Records(mem[area.offset..area.offset + area.size])
  }

  /** The records of the section, first to last, are the stretches of sixteen bytes from its offset on. */
  lemma {:induction false} RecordIs(mem: seq<bv8>, area: Area, k: nat)
    requires Usable(area) && area.offset + area.size <= |mem|
    ensures |LogOf(mem, area)| == area.size / 16
    ensures k < |LogOf(mem, area)| ==>
              var at := area.offset + 16 * k;
              at + 16 <= |mem| && LogOf(mem, area)[k] == mem[at..at + 16]
  {
    if k < area.size / VB_NVDATA_SIZE {
      SliceOfSlice(mem, area.offset, area.offset + area.size, VB_NVDATA_SIZE * k, VB_NVDATA_SIZE * (k + 1));
    }
  }

  /** Only bytes of the section may differ. */
  ghost predicate OutsideKept(was: seq<bv8>, now: seq<bv8>, area: Area)
    requires area.Area? && area.offset + area.size <= |was| == |now|
  {
    now[..area.offset] == was[..area.offset] && now[area.offset + area.size..] == was[area.offset + area.size..]
  }

  // ----- records of a patched section -----

  lemma {:induction false} PatchedRecord(mem: seq<bv8>, area: Area, k: nat, r: Record)
    requires Usable(area) && area.offset + area.size <= |mem| && VB_NVDATA_SIZE * (k + 1) <= area.size
    ensures area.offset + VB_NVDATA_SIZE * (k + 1) <= |mem|
    ensures var now := Patched(mem, area.offset + VB_NVDATA_SIZE * k, r);
            && LogOf(now, area) == LogOf(mem, area)[k := r] && OutsideKept(mem, now, area)
  {
    var off := area.offset + VB_NVDATA_SIZE * k;
    var now := Patched(mem, off, r);
    var was', now' := mem[area.offset..area.offset + area.size], now[area.offset..area.offset + area.size];
    forall i | 0 <= i < area.size
      ensures now'[i] == if VB_NVDATA_SIZE * k <= i < VB_NVDATA_SIZE * (k + 1) then r[i - VB_NVDATA_SIZE * k]
                         else was'[i]
    {
      PatchedAt(mem, off, r, area.offset + i);
    }
    forall j | 0 <= j < |Records(now')|
      ensures Records(now')[j] == Records(was')[k := r][j]
    {
      RecordOfPatch(was', now', k, r, j);
    }
    assert Records(now') == Records(was')[k := r];
    PatchedOutside(mem, off, r, area.offset, area.offset + area.size);
  }

  lemma {:induction false} PatchedAt(s: seq<bv8>, off: nat, data: seq<bv8>, i: nat)
    requires off + |data| <= |s| && i < |s|
    ensures Patched(s, off, data)[i] == if off <= i < off + |data| then data[i - off] else s[i]
  {
  }

  lemma {:induction false} PatchedOutside(s: seq<bv8>, off: nat, data: seq<bv8>, from: nat, to: nat)
    requires from <= off && off + |data| <= to <= |s|
    ensures Patched(s, off, data)[..from] == s[..from] && Patched(s, off, data)[to..] == s[to..]
  {
  }

  lemma {:induction false} RecordOfPatch(was: seq<bv8>, now: seq<bv8>, k: nat, r: Record, j: nat)
    requires |was| == |now| && |was| % VB_NVDATA_SIZE == 0 && VB_NVDATA_SIZE * (k + 1) <= |was|
             && j < |was| / VB_NVDATA_SIZE
    requires forall i :: 0 <= i < |was| ==>
               now[i] == if VB_NVDATA_SIZE * k <= i < VB_NVDATA_SIZE * (k + 1) then r[i - VB_NVDATA_SIZE * k]
                         else was[i]
    ensures Records(now)[j] == if j == k then r else Records(was)[j]
  {
    var lo, hi := VB_NVDATA_SIZE * j, VB_NVDATA_SIZE * (j + 1);
    assert now[lo..hi] == if j == k then r else was[lo..hi];
  }

  lemma {:induction false} ErasedRecords(mem: seq<bv8>, area: Area)
    requires Usable(area) && area.offset + area.size <= |mem|
    ensures var now := Patched(mem, area.offset, Blank(area.size));
            && LogOf(now, area) == Erased(LogOf(mem, area)) && OutsideKept(mem, now, area)
  {
    var now := Patched(mem, area.offset, Blank(area.size));
    assert now[area.offset..area.offset + area.size] == Blank(area.size);
    forall k | 0 <= k < area.size / VB_NVDATA_SIZE
      ensures Records(Blank(area.size))[k] == EMPTY
    {
      assert Blank(area.size)[VB_NVDATA_SIZE * k..VB_NVDATA_SIZE * (k + 1)] == EMPTY;
    }
    assert Records(Blank(area.size)) == Erased(LogOf(mem, area));
    assert now[..area.offset] == mem[..area.offset];
    assert now[area.offset + area.size..] == mem[area.offset + area.size..];
  }

  lemma {:induction false} RecordAt(s: seq<bv8>, k: nat)
    requires VB_NVDATA_SIZE * (k + 1) <= |s|
    ensures Records(s)[k] == s[VB_NVDATA_SIZE * k..VB_NVDATA_SIZE * (k + 1)]
  {
  }

  lemma {:induction false} FirstErased(log: Log, new': Record)
    requires log != []
    ensures Overwritable(Erased(log)[0], new')
  {
    EmptyTakesAll(new');
  }

  lemma {:induction false} RecordBytes(mem: seq<bv8>, area: Area, k: nat)
    requires Usable(area) && area.offset + area.size <= |mem| && VB_NVDATA_SIZE * (k + 1) <= area.size
    ensures LogOf(mem, area)[k] == mem[area.offset + VB_NVDATA_SIZE * k..area.offset + VB_NVDATA_SIZE * (k + 1)]
  {
    var lo, hi := VB_NVDATA_SIZE * k, VB_NVDATA_SIZE * (k + 1);
    SliceOfSlice(mem, area.offset, area.offset + area.size, lo, hi);
  }

  // ----- reading -----

  /** Scans for the first erased record; `block` is the start of the record in front of it. */
  method FindLastUsed(nvram: seq<bv8>) returns (block: nat, curr: nat)
    requires |nvram| >= VB_NVDATA_SIZE && |nvram| % VB_NVDATA_SIZE == 0
    ensures curr == VB_NVDATA_SIZE * Used(Records(nvram)) && block == VB_NVDATA_SIZE * NewestAt(Records(nvram))
    ensures curr <= |nvram| && block + VB_NVDATA_SIZE <= |nvram|
  {
    ghost var log := Records(nvram);
    ghost var k := 0;
    block, curr := 0, 0;
    while curr < |nvram|
      invariant curr == VB_NVDATA_SIZE * k && k <= |log| && block == if k == 0 then 0 else VB_NVDATA_SIZE * (k - 1)
      invariant forall j :: 0 <= j < k ==> log[j] != EMPTY
    {
      assert log[k] == nvram[curr..curr + VB_NVDATA_SIZE];
      if nvram[curr..curr + VB_NVDATA_SIZE] == EMPTY {
        break;
      }
      block := curr;
      curr := curr + VB_NVDATA_SIZE;
      k := k + 1;
    }
    UsedIs(log, k);
  }

  /** The newest record with one flag changed and its checksum renewed. */
  method ModifiedRecord(block: Record, p: Param, value: bv8) returns (r: Record)
    requires p.offset < VB_NVDATA_SIZE && p.shift <= 8
    ensures r == Changed(block, p, value)
  {
    hide WriteBits, Checksum;
    var dummy := new bv8[VB_NVDATA_SIZE](i requires 0 <= i < VB_NVDATA_SIZE => block[i]);
    assert dummy[..] == block;
    dummy[p.offset] := WriteBits(dummy[p.offset], p, value);
    assert dummy[..] == block[p.offset := WriteBits(block[p.offset], p, value)];
    ghost var changed := dummy[..];
    var crc := Crc8(dummy[..VB_CRC_OFFSET]);
    dummy[VB_CRC_OFFSET] := crc;
    assert dummy[..] == changed[VB_CRC_OFFSET := Checksum(changed[..VB_CRC_OFFSET])];
    r := dummy[..];
  }

  // ----- writing -----

  method IsOverwritable(block: Record, new': Record) returns (r: bool)
    ensures r == Overwritable(block, new')
  {
    hide CanOverwrite;
    for i := 0 to VB_NVDATA_SIZE
      invariant forall k :: 0 <= k < i ==> CanOverwrite(block[k], new'[k])
    {
      if !CanOverwrite(block[i], new'[i]) {
        return false;
      }
    }
    return true;
  }

  /** With the record size a multiple of the write size, all records are aligned or none is. */
  lemma {:induction false} RecordsAligned(off: nat, k: nat, w: nat)
    requires w > 0
    ensures VB_NVDATA_SIZE % w == 0 ==> ((off + VB_NVDATA_SIZE * k) % w == 0 <==> off % w == 0)
  {
    if k > 0 && VB_NVDATA_SIZE % w == 0 {
      RecordsAligned(off, k - 1, w);
      SumAligned(off + VB_NVDATA_SIZE * (k - 1), VB_NVDATA_SIZE, w);
    }
  }

  /** Writes one record where the cells of the log can take it. */
  method WriteRecord(dev: FlashDevice, area: Area, k: nat, new': Record) returns (ok: bool)
    requires dev.Valid() && InFlash(dev, area) && Usable(area) && VB_NVDATA_SIZE * (k + 1) <= area.size
    requires Overwritable(LogOf(dev.mem[..], area)[k], new')
    modifies dev.mem
    ensures WroteRecord(dev, old(dev.mem[..]), dev.mem[..], area, k, new', ok)
  {
    hide Overwritable, Records;
    ghost var was := dev.mem[..];
    var off := area.offset + VB_NVDATA_SIZE * k;
    RecordBytes(was, area, k);
    RecordsAligned(area.offset, k, dev.writeSize);
    TakesRecord(LogOf(was, area)[k], new');
    PatchedRecord(was, area, k, new');
    assert was[off..off + VB_NVDATA_SIZE] == LogOf(was, area)[k];
    ok := dev.Write(off, new');
  }

  /** An accepted write needs aligned records and, when the section is full, an aligned section. */
  predicate Accepts(dev: FlashDevice, log: Log, area: Area, new': Record)
    requires dev.Valid() && Usable(area) && log != []
  {
    dev.CanWrite(area.offset, VB_NVDATA_SIZE) && (NeedsErase(log, new') ==> dev.CanErase(area.offset, area.size))
  }

  /**
   * What a call may do to the flash: append the new record, or
   * nothing, or, when only the erase is aligned, erase everything.
   */
  ghost predicate PutRight(dev: FlashDevice, was: seq<bv8>, now: seq<bv8>, area: Area, new': Record, ok: bool)
    requires dev.Valid() && Usable(area) && area.offset + area.size <= |was| == |now|
  {
    var log := LogOf(was, area);
    && (ok <==> Accepts(dev, log, area, new'))
    && OutsideKept(was, now, area)
    && LogOf(now, area) == if ok then Append(log, new')
                           else if NeedsErase(log, new') && dev.CanErase(area.offset, area.size) then Erased(log)
                           else log
  }

  /** What `WriteRecord` may do to record `k`. */
  ghost predicate WroteRecord(dev: FlashDevice, was: seq<bv8>, now: seq<bv8>, area: Area, k: nat, new': Record,
                              ok: bool)
    requires dev.Valid() && Usable(area) && area.offset + area.size <= |was| == |now|
             && VB_NVDATA_SIZE * (k + 1) <= area.size
  {
    && (ok <==> dev.CanWrite(area.offset, VB_NVDATA_SIZE))
    && (ok ==> LogOf(now, area) == LogOf(was, area)[k := new'] && OutsideKept(was, now, area))
    && (!ok ==> now == was)
  }

  lemma {:induction false} WriteCompletes(dev: FlashDevice, was: seq<bv8>, now: seq<bv8>, area: Area, k: nat,
                                          new': Record, ok: bool)
    requires dev.Valid() && Usable(area) && area.offset + area.size <= |was| == |now|
             && VB_NVDATA_SIZE * (k + 1) <= area.size
    requires WroteRecord(dev, was, now, area, k, new', ok)
    requires var log := LogOf(was, area);
             if Overwritable(Newest(log), new') then k == NewestAt(log) else k == Used(log) < |log|
    ensures PutRight(dev, was, now, area, new', ok)
  {
    hide Overwritable, Records;
  }

  lemma {:induction false} EraseCompletes(dev: FlashDevice, was: seq<bv8>, blank: seq<bv8>, now: seq<bv8>, area: Area,
                                          new': Record, ok: bool)
    requires dev.Valid() && Usable(area) && area.offset + area.size <= |was| == |now| == |blank|
    requires NeedsErase(LogOf(was, area), new') && dev.CanErase(area.offset, area.size)
    requires LogOf(blank, area) == Erased(LogOf(was, area)) && OutsideKept(was, blank, area)
    requires WroteRecord(dev, blank, now, area, 0, new', ok)
    ensures PutRight(dev, was, now, area, new', ok)
  {
    hide Overwritable, Records;
  }

  method PutRecord(dev: FlashDevice, area: Area, nvram: seq<bv8>, block: nat, curr: nat, new': Record)
    returns (ok: bool)
    requires dev.Valid() && InFlash(dev, area) && Usable(area) && nvram == dev.mem[area.offset..area.offset + area.size]
    requires curr == VB_NVDATA_SIZE * Used(Records(nvram)) && block == VB_NVDATA_SIZE * NewestAt(Records(nvram))
    requires block + VB_NVDATA_SIZE <= |nvram|
    modifies dev.mem
    ensures PutRight(dev, old(dev.mem[..]), dev.mem[..], area, new', ok)
  {
    hide Overwritable, Records, Append, Erased;
    ghost var was := dev.mem[..];
    ghost var log := LogOf(was, area);
    assert was[area.offset..area.offset + area.size] == nvram;
    RecordAt(nvram, NewestAt(log));
    var inPlace := IsOverwritable(nvram[block..block + VB_NVDATA_SIZE], new');
    if inPlace {
      ok := WriteRecord(dev, area, block / VB_NVDATA_SIZE, new');
      WriteCompletes(dev, was, dev.mem[..], area, NewestAt(log), new', ok);
    } else if curr != |nvram| {
      EmptyTakesAll(new');
      ok := WriteRecord(dev, area, curr / VB_NVDATA_SIZE, new');
      WriteCompletes(dev, was, dev.mem[..], area, Used(log), new', ok);
    } else {
      ErasedRecords(was, area);
      ok := dev.Erase(area.offset, area.size);
      if !ok {
        return;
      }
      FirstErased(log, new');
      ghost var blank := dev.mem[..];
      ok := WriteRecord(dev, area, 0, new');
      EraseCompletes(dev, was, blank, dev.mem[..], area, new', ok);
    }
  }

  lemma {:induction false} NewestIs(nvram: seq<bv8>, block: nat, current: seq<bv8>)
    requires |nvram| >= VB_NVDATA_SIZE && block == VB_NVDATA_SIZE * NewestAt(Records(nvram))
             && block + VB_NVDATA_SIZE <= |nvram|
    requires current == nvram[block..block + VB_NVDATA_SIZE]
    ensures Records(nvram) != [] && current == Newest(Records(nvram))
  {
    RecordAt(nvram, NewestAt(Records(nvram)));
  }

  datatype Access = Get(value: bv8) | Done | Error

  /** The section and where its records in use end. */
  method ReadSection(dev: FlashDevice, area: Area) returns (nvram: seq<bv8>, block: nat, curr: nat)
    requires dev.Valid() && InFlash(dev, area) && Usable(area)
    ensures nvram == dev.mem[area.offset..area.offset + area.size]
    ensures curr == VB_NVDATA_SIZE * Used(Records(nvram)) && block == VB_NVDATA_SIZE * NewestAt(Records(nvram))
    ensures block + VB_NVDATA_SIZE <= |nvram|
            && nvram[block..block + VB_NVDATA_SIZE] == Newest(LogOf(dev.mem[..], area))
  {
    hide Records, NewestAt, Used;
    nvram := dev.Read(area.offset, area.size);
    assert dev.mem[..][area.offset..area.offset + area.size] == nvram;
    block, curr := FindLastUsed(nvram);
    NewestIs(nvram, block, nvram[block..block + VB_NVDATA_SIZE]);
  }

  /** The call behind both getting and setting a flag. */
  method ReadWrite(dev: FlashDevice, area: Area, p: Param, value: bv8, write: bool) returns (r: Access)
    requires dev.Valid() && InFlash(dev, area) && p.shift <= 8
    modifies dev.mem
    ensures !Usable(area) || p.offset >= VB_NVDATA_SIZE ==> r == Error && dev.mem[..] == old(dev.mem[..])
    ensures Usable(area) && p.offset < VB_NVDATA_SIZE && !write ==>
              r == Get(Field(LogOf(dev.mem[..], area), p)) && dev.mem[..] == old(dev.mem[..])
    ensures Usable(area) && p.offset < VB_NVDATA_SIZE && write ==>
              var was := old(dev.mem[..]);
              && (r == Done || r == Error)
              && PutRight(dev, was, dev.mem[..], area, Changed(Newest(LogOf(was, area)), p, value), r == Done)
  {
    if p.offset >= VB_NVDATA_SIZE {
      return Error;
    }
    if area.NoArea? || area.size < VB_NVDATA_SIZE || area.size % VB_NVDATA_SIZE != 0 {
      return Error;
    }

    hide ReadBits, WriteBits, Changed, PutRight, LogOf, Newest, Records, NewestAt, Used;
    var nvram, block, curr := ReadSection(dev, area);
    var current := nvram[block..block + VB_NVDATA_SIZE];
    if write {
      var new' := ModifiedRecord(current, p, value);
      var ok := PutRecord(dev, area, nvram, block, curr, new');
      r := if ok then Done else Error;
    } else {
      r := Get(ReadBits(current[p.offset], p));
    }
  }

  // ----- flags by name -----

  predicate Named(i: nat, name: string) {
    i < |PARAM_TABLE| && PARAM_TABLE[i].name == name && forall j :: 0 <= j < i ==> PARAM_TABLE[j].name != name
  }

  method Lookup(name: string) returns (i: nat)
    ensures if i < |PARAM_TABLE| then Named(i, name) else forall k: nat :: !Named(k, name)
  {
    hide Fits;
    i := 0;
    while i < |PARAM_TABLE|
      invariant forall j :: 0 <= j < i && j < |PARAM_TABLE| ==> PARAM_TABLE[j].name != name
    {
      if PARAM_TABLE[i].name == name {
        return;
      }
      i := i + 1;
    }
  }

  predicate CanSet(i: nat, name: string) {
    Named(i, name) && PARAM_TABLE[i].writable
  }

  /** The newest record with flag `i` of the table changed. */
  function RecordWith(mem: seq<bv8>, area: Area, i: nat, value: bv8): Record
    requires Usable(area) && area.offset + area.size <= |mem| && i < |PARAM_TABLE| && Fits(PARAM_TABLE[i])
  {
    Changed(Newest(LogOf(mem, area)), PARAM_TABLE[i], value)
  }

  /**
   * Sets a flag. Unknown and read-only flags are refused. Otherwise the record with
   * the new value is put: the call succeeds exactly when the flash accepts it, and
   * then that flag has the new value, masked, and all others are what they were.
   */
  method SetFlag(dev: FlashDevice, area: Area, name: string, value: bv8) returns (ok: bool)
    requires dev.Valid() && InFlash(dev, area)
    modifies dev.mem
    ensures !Usable(area) || (forall i: nat :: !CanSet(i, name)) ==> !ok && dev.mem[..] == old(dev.mem[..])
    ensures Usable(area) ==> forall i: nat :: CanSet(i, name) ==>
              Fits(PARAM_TABLE[i])
                && PutRight(dev, old(dev.mem[..]), dev.mem[..], area, RecordWith(old(dev.mem[..]), area, i, value), ok)
  {
    hide Changed, Newest, Append, Fits, LogOf;
    var i := Lookup(name);
    if i >= |PARAM_TABLE| {
      return false;
    }
    if !PARAM_TABLE[i].writable {
      assert forall k: nat :: Named(k, name) ==> k == i;
      return false;
    }
    assert CanSet(i, name);
    assert Fits(PARAM_TABLE[i]) && PARAM_TABLE[i].shift < 8 && PARAM_TABLE[i].offset < VB_CRC_OFFSET by {
      TableFits(i);
      FitsMeans(PARAM_TABLE[i]);
    }
    var r := ReadWrite(dev, area, PARAM_TABLE[i], value, true);
    ok := r == Done;
  }

  lemma {:induction false} FitsMeans(p: Param)
    requires Fits(p)
    ensures p.shift < 8 && p.offset < VB_CRC_OFFSET
  {
  }

  /** Reads a flag; the flash is not written. */
  method GetFlag(dev: FlashDevice, area: Area, name: string) returns (r: Access)
    requires dev.Valid() && InFlash(dev, area)
    modifies dev.mem
    ensures dev.mem[..] == old(dev.mem[..])
    ensures !Usable(area) || (forall i: nat :: !Named(i, name)) ==> r == Error
    ensures Usable(area) ==>
              forall i: nat :: Named(i, name) ==>
                Fits(PARAM_TABLE[i]) && r == Get(Field(LogOf(dev.mem[..], area), PARAM_TABLE[i]))
  {
    hide Fits, LogOf, Field;
    var i := Lookup(name);
    if i >= |PARAM_TABLE| {
      return Error;
    }
    assert Fits(PARAM_TABLE[i]) && PARAM_TABLE[i].shift < 8 && PARAM_TABLE[i].offset < VB_CRC_OFFSET by {
      TableFits(i);
      FitsMeans(PARAM_TABLE[i]);
    }
    assert forall k: nat :: Named(k, name) ==> k == i;
    r := ReadWrite(dev, area, PARAM_TABLE[i], 0, false);
  }
}
