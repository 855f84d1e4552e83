/** The named flags and where they are in a record. */
module VbnvFields {
  import opened Flash
  import opened VbnvRecords

  datatype Param = Param(name: string, writable: bool, offset: nat, shift: bv8, mask: bv8)

  const VB_DEFAULT_MASK: bv8 := 0x01

  const PARAM_TABLE: seq<Param> := [
    Param("try_count", true, VB_BOOT_OFFSET, 0, 0xf),
    Param("backup_nvram", true, VB_BOOT_OFFSET, 4, VB_DEFAULT_MASK),
    Param("oprom_needed", true, VB_BOOT_OFFSET, 5, VB_DEFAULT_MASK),
    Param("disable_dev", true, VB_BOOT_OFFSET, 6, VB_DEFAULT_MASK),
    Param("debug_reset", true, VB_BOOT_OFFSET, 7, VB_DEFAULT_MASK),
    Param("boot_result", true, VB_BOOT2_OFFSET, 0, 0x3),
    Param("fw_tried", false, VB_BOOT2_OFFSET, 2, VB_DEFAULT_MASK),
    Param("fw_try_next", true, VB_BOOT2_OFFSET, 3, VB_DEFAULT_MASK),
    Param("fw_prev_result", false, VB_BOOT2_OFFSET, 4, 0x3),
    Param("prev_tried", false, VB_BOOT2_OFFSET, 6, VB_DEFAULT_MASK),
    Param("dev_boot_usb", true, VB_DEV_OFFSET, 0, VB_DEFAULT_MASK),
    Param("dev_boot_signed_only", true, VB_DEV_OFFSET, 1, VB_DEFAULT_MASK),
    Param("dev_boot_legacy", true, VB_DEV_OFFSET, 2, VB_DEFAULT_MASK),
    Param("dev_boot_fastboot_full_cap", true, VB_DEV_OFFSET, 3, VB_DEFAULT_MASK),
    Param("tpm_clear_owner_request", true, VB_TPM_OFFSET, 0, VB_DEFAULT_MASK),
    Param("tpm_clear_owner_done", true, VB_TPM_OFFSET, 1, VB_DEFAULT_MASK),
    Param("unlock_fastboot", true, VB_MISC_OFFSET, 0, VB_DEFAULT_MASK),
    Param("boot_on_ac_detect", true, VB_MISC_OFFSET, 1, VB_DEFAULT_MASK),
    Param("recovery_reason", true, VB_RECOVERY_OFFSET, 0, 0xff)
  ]

  /** The bits of its byte a field takes. */
  function FieldMask(p: Param): bv8
    requires p.shift <= 8
  {
    Up(p.mask, p.shift)
  }

  function Up(m: bv8, s: bv8): bv8
    requires s <= 8
  {
    m << s
  }

  /** No bit of the mask is lost when it is shifted up. */
  predicate Survives(m: bv8, s: bv8)
    requires s <= 8
  {
    Up(m, s) >> s == m
  }

  /** The bits of `b` outside `m` and those of `v` inside. */
  function Merge(b: bv8, m: bv8, v: bv8): bv8 {
    (b & !m) | (v & m)
  }

  function Extract(b: bv8, m: bv8, s: bv8): bv8
    requires s <= 8
  {
    (b & m) >> s
  }

  function Raise(v: bv8, m: bv8, s: bv8): bv8
    requires s <= 8
  {
    (v & m) << s
  }

  function ReadBits(b: bv8, p: Param): bv8
    requires p.shift <= 8
  {
    Extract(b, FieldMask(p), p.shift)
  }

  function WriteBits(b: bv8, p: Param, value: bv8): bv8
    requires p.shift <= 8
  {
    Merge(b, FieldMask(p), Raise(value, p.mask, p.shift))
  }

  /** The field lies in the data bytes and is not cut off at the end of its byte. */
  predicate Fits(p: Param) {
    p.offset < VB_CRC_OFFSET && p.shift < 8 && Survives(p.mask, p.shift)
  }

  predicate Apart(p: Param, q: Param)
    requires p.shift <= 8 && q.shift <= 8
  {
    p.offset != q.offset || FieldMask(p) & FieldMask(q) == 0
  }

  lemma {:induction false} ReadWritten(b: bv8, p: Param, value: bv8)
    requires p.shift < 8 && Survives(p.mask, p.shift)
    ensures ReadBits(WriteBits(b, p, value), p) == value & p.mask
  {
    hide Merge, Extract, Raise, Up, Survives;
    MergeInside(b, FieldMask(p), Raise(value, p.mask, p.shift), p.shift);
    RaisedBack(value, p.mask, p.shift);
  }

  lemma {:induction false} ReadOther(b: bv8, p: Param, q: Param, value: bv8)
    requires p.shift < 8 && q.shift < 8 && FieldMask(p) & FieldMask(q) == 0
    ensures ReadBits(WriteBits(b, p, value), q) == ReadBits(b, q)
  {
    hide Merge, Extract, Raise, Up, Survives;
    MergeOutside(b, FieldMask(p), Raise(value, p.mask, p.shift), FieldMask(q), q.shift);
  }

  lemma {:induction false} RewriteSame(b: bv8, p: Param)
    requires p.shift < 8 && Survives(p.mask, p.shift)
    ensures WriteBits(b, p, ReadBits(b, p)) == b
  {
    hide Merge, Extract, Raise, Up, Survives;
    MergedBack(b, p.mask, p.shift);
  }

  /** The bits of `b` from bit `s` up that are in the mask. */
  function BitsFrom(b: bv8, m: bv8, s: bv8): bv8
    requires s < 8
  {
    (b >> s) & m
  }

  /** Outside the mask moved up to bit `s` the bytes are the same. */
  predicate SameElsewhere(b: bv8, b': bv8, m: bv8, s: bv8)
    requires s < 8
  {
    b & !(m << s) == b' & !(m << s)
  }

  /** Reading a field moves its bits down; writing it leaves all other bits of the byte alone. */
  lemma {:induction false} FieldBits(b: bv8, p: Param, value: bv8)
    requires p.shift < 8 && Survives(p.mask, p.shift)
    ensures ReadBits(b, p) == BitsFrom(b, p.mask, p.shift)
    ensures BitsFrom(WriteBits(b, p, value), p.mask, p.shift) == value & p.mask
    ensures SameElsewhere(b, WriteBits(b, p, value), p.mask, p.shift)
  {
    hide Merge, Extract, Raise, Up, Survives, BitsFrom, SameElsewhere;
    ReadWritten(b, p, value);
    ExtractedBits(b, p.mask, p.shift);
    ExtractedBits(WriteBits(b, p, value), p.mask, p.shift);
    KeptBits(b, p.mask, p.shift, Raise(value, p.mask, p.shift));
  }

  lemma {:induction false} ExtractedBits(b: bv8, m: bv8, s: bv8)
    requires s < 8 && Survives(m, s)
    ensures Extract(b, Up(m, s), s) == BitsFrom(b, m, s)
  {
    if s == 0 {
    } else if s == 1 {
    } else if s == 2 {
    } else if s == 3 {
    } else if s == 4 {
    } else if s == 5 {
    } else if s == 6 {
    } else {
      assert s == 7;
    }
  }

  lemma {:induction false} KeptBits(b: bv8, m: bv8, s: bv8, v: bv8)
    requires s < 8
    ensures SameElsewhere(b, Merge(b, Up(m, s), v), m, s)
  {
  }

  lemma {:induction false} MergeInside(b: bv8, m: bv8, v: bv8, s: bv8)
    requires s < 8
    ensures Extract(Merge(b, m, v), m, s) == Extract(v, m, s)
  {
    assert Merge(b, m, v) & m == v & m;
  }

  lemma {:induction false} MergeOutside(b: bv8, m: bv8, v: bv8, n: bv8, s: bv8)
    requires s < 8 && m & n == 0
    ensures Extract(Merge(b, m, v), n, s) == Extract(b, n, s)
  {
    assert Merge(b, m, v) & n == b & n;
  }

  /** A mask that survives the shift up and down keeps what it masks. */
  lemma {:induction false} RaisedBack(v: bv8, m: bv8, s: bv8)
    requires s < 8 && Survives(m, s)
    ensures Extract(Raise(v, m, s), Up(m, s), s) == v & m
  {
    if s == 0 {
    } else if s == 1 {
    } else if s == 2 {
    } else if s == 3 {
    } else if s == 4 {
    } else if s == 5 {
    } else if s == 6 {
    } else {
      assert s == 7;
    }
  }

  lemma {:induction false} MergedBack(b: bv8, m: bv8, s: bv8)
    requires s < 8 && Survives(m, s)
    ensures Merge(b, Up(m, s), Raise(Extract(b, Up(m, s), s), m, s)) == b
  {
    if s == 0 {
    } else if s == 1 {
    } else if s == 2 {
    } else if s == 3 {
    } else if s == 4 {
    } else if s == 5 {
    } else if s == 6 {
    } else {
      assert s == 7;
    }
  }

  lemma {:induction false} TableFits(i: nat)
    requires i < |PARAM_TABLE|
    ensures Fits(PARAM_TABLE[i])
  {
    // One case for each entry of the table.
    match i
    case 0 => case 1 => case 2 => case 3 => case 4 => case 5 => case 6 => case 7 => case 8 => case 9 => case 10 =>
    case 11 => case 12 => case 13 => case 14 => case 15 => case 16 => case 17 => case _ =>
  }

  /** The entries of one byte of the record, with the bits they take. */
  lemma {:induction false} TableMask(i: nat)
    requires i < |PARAM_TABLE|
    ensures PARAM_TABLE[i].shift < 8 && (PARAM_TABLE[i].offset, FieldMask(PARAM_TABLE[i])) == Places()[i]
  {
    // One case for each entry of the table.
    match i
    case 0 => case 1 => case 2 => case 3 => case 4 => case 5 => case 6 => case 7 => case 8 => case 9 => case 10 =>
    case 11 => case 12 => case 13 => case 14 => case 15 => case 16 => case 17 => case _ =>
  }

  function Places(): (s: seq<(nat, bv8)>)
    ensures |s| == |PARAM_TABLE|
  {
    [(VB_BOOT_OFFSET, 0x0F), (VB_BOOT_OFFSET, 0x10), (VB_BOOT_OFFSET, 0x20), (VB_BOOT_OFFSET, 0x40),
     (VB_BOOT_OFFSET, 0x80), (VB_BOOT2_OFFSET, 0x03), (VB_BOOT2_OFFSET, 0x04), (VB_BOOT2_OFFSET, 0x08),
     (VB_BOOT2_OFFSET, 0x30), (VB_BOOT2_OFFSET, 0x40),
     (VB_DEV_OFFSET, 0x01), (VB_DEV_OFFSET, 0x02), (VB_DEV_OFFSET, 0x04), (VB_DEV_OFFSET, 0x08),
     (VB_TPM_OFFSET, 0x01), (VB_TPM_OFFSET, 0x02), (VB_MISC_OFFSET, 0x01), (VB_MISC_OFFSET, 0x02),
     (VB_RECOVERY_OFFSET, 0xFF)]
  }

  lemma {:induction false} PlacesApart(i: nat, j: nat)
    requires i < j < |Places()| && Places()[i].0 == Places()[j].0
    ensures Places()[i].1 & Places()[j].1 == 0
  {
    if i < 5 {
      LowPlacesApart(i, j);
    } else {
      HighPlacesApart(i, j);
    }
  }

  lemma {:induction false} LowPlacesApart(i: nat, j: nat)
    requires i < j < |Places()| && i < 5 && Places()[i].0 == Places()[j].0
    ensures Places()[i].1 & Places()[j].1 == 0
  {
    assert j < 5;
    // One case for each entry of the first byte.
    match i
    case 0 => case 1 => case 2 => case 3 => case _ =>
  }

  lemma {:induction false} HighPlacesApart(i: nat, j: nat)
    requires 5 <= i < j < |Places()| && Places()[i].0 == Places()[j].0
    ensures Places()[i].1 & Places()[j].1 == 0
  {
    // One case for each other entry of the table.
    match i
    case 5 => case 6 => case 7 => case 8 => case 9 => case 10 =>
    case 11 => case 12 => case 13 => case 14 => case 15 => case 16 => case 17 => case _ =>
  }

  /** No two flags share a bit. */
  lemma {:induction false} TableApart(i: nat, j: nat)
    requires i < |PARAM_TABLE| && j < |PARAM_TABLE| && i != j
    ensures Fits(PARAM_TABLE[i]) && Fits(PARAM_TABLE[j]) && Apart(PARAM_TABLE[i], PARAM_TABLE[j])
  {
    hide FieldMask, Places, PARAM_TABLE, Fits;
    TableFits(i);
    TableFits(j);
    TableMask(i);
    TableMask(j);
    if PARAM_TABLE[i].offset == PARAM_TABLE[j].offset {
      PlacesApart(if i < j then i else j, if i < j then j else i);
    }
  }
}
