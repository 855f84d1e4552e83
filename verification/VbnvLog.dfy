/** The log of records: what one write does to it and what every write keeps. */
module VbnvLog {
  import opened Flash
  import opened VbnvRecords
  import opened VbnvFields

  type Log = seq<Record>

  const EMPTY: Record := Blank(VB_NVDATA_SIZE)

  // ----- the records of a section -----

  function Records(s: seq<bv8>): (log: Log)
    ensures |log| == |s| / VB_NVDATA_SIZE
  {
    seq(|s| / VB_NVDATA_SIZE,
        k requires 0 <= k < |s| / VB_NVDATA_SIZE => s[VB_NVDATA_SIZE * k..VB_NVDATA_SIZE * (k + 1)])
  }

  /** The records in front of the first erased one. */
  function Used(log: Log): (n: nat)
    ensures n <= |log| && (forall k :: 0 <= k < n ==> log[k] != EMPTY) && (n < |log| ==> log[n] == EMPTY)
  {
    if log == [] || log[0] == EMPTY then 0 else 1 + Used(log[1..])
  }

  lemma {:induction false} UsedIs(log: Log, n: nat)
    requires n <= |log| && (forall k :: 0 <= k < n ==> log[k] != EMPTY) && (n < |log| ==> log[n] == EMPTY)
    ensures Used(log) == n
  {
  }

  /** The record that counts: the last used one, or the first one of an erased section. */
  function NewestAt(log: Log): nat {
    if Used(log) == 0 then 0 else Used(log) - 1
  }

  function Newest(log: Log): Record
    requires log != []
  {
    log[NewestAt(log)]
  }

  /** Used records, then erased ones. */
  ghost predicate Contiguous(log: Log) {
    forall k :: Used(log) <= k < |log| ==> log[k] == EMPTY
  }

  // ----- one write -----

  function Sealed(r: Record): Record {
    r[VB_CRC_OFFSET := Checksum(r[..VB_CRC_OFFSET])]
  }

  predicate IsSealed(r: Record) {
    r[VB_CRC_OFFSET] == Checksum(r[..VB_CRC_OFFSET])
  }

  function Changed(r: Record, p: Param, value: bv8): Record
    requires p.offset < VB_NVDATA_SIZE && p.shift <= 8
  {
    Sealed(r[p.offset := WriteBits(r[p.offset], p, value)])
  }

  predicate CanOverwrite(current: bv8, new': bv8) {
    current & new' == new'
  }

  predicate Overwritable(r: Record, new': Record) {
    forall i :: 0 <= i < VB_NVDATA_SIZE ==> CanOverwrite(r[i], new'[i])
  }

  predicate NeedsErase(log: Log, new': Record)
    requires log != []
  {
    !Overwritable(Newest(log), new') && Used(log) == |log|
  }

  function Erased(log: Log): Log {
    seq(|log|, _ => EMPTY)
  }

  /** In place when only bits clear, else behind the last record, else into an erased section. */
  function Append(log: Log, new': Record): Log
    requires log != []
  {
    if Overwritable(Newest(log), new') then log[NewestAt(log) := new']
    else if Used(log) < |log| then log[Used(log) := new']
    else Erased(log)[0 := new']
  }

  /** The section after flag `p` is set. */
  function SetField(log: Log, p: Param, value: bv8): Log
    requires log != [] && p.offset < VB_NVDATA_SIZE && p.shift <= 8
  {
    Append(log, Changed(Newest(log), p, value))
  }

  /** The value of flag `p` in the section. */
  function Field(log: Log, p: Param): bv8
    requires log != [] && p.offset < VB_NVDATA_SIZE && p.shift <= 8
  {
    ReadBits(Newest(log)[p.offset], p)
  }

  // ----- laws of one write -----

  lemma {:induction false} SealedIsSealed(r: Record)
    ensures IsSealed(Sealed(r)) && Sealed(r)[..VB_CRC_OFFSET] == r[..VB_CRC_OFFSET]
  {
    assert Sealed(r)[..VB_CRC_OFFSET] == r[..VB_CRC_OFFSET];
  }

  /** A record with a right checksum is never mistaken for an erased one. */
  lemma {:induction false} SealedIsNotEmpty(r: Record)
    requires IsSealed(r)
    ensures r != EMPTY
  {
    BlankIsNotSealed();
    assert EMPTY[..VB_CRC_OFFSET] == Blank(VB_CRC_OFFSET);
  }

  /** A record is sealed exactly when all its bytes together leave no remainder. */
  lemma {:induction false} SealedIffDivides(r: Record)
    ensures IsSealed(r) <==> IsRemainder(r, 0)
  {
    hide IsRemainder, Checksum;
    DividesIffChecksum(r[..VB_CRC_OFFSET], r[VB_CRC_OFFSET]);
    assert r[..VB_CRC_OFFSET] + [r[VB_CRC_OFFSET]] == r;
  }

  /** Setting a field changes its bits and the last byte, which makes the record divide again. */
  lemma {:induction false} ChangedOnly(r: Record, p: Param, value: bv8)
    requires Fits(p)
    ensures var c := Changed(r, p, value);
            && (forall k :: 0 <= k < 15 && k != p.offset ==> c[k] == r[k])
            && BitsFrom(c[p.offset], p.mask, p.shift) == value & p.mask
            && SameElsewhere(r[p.offset], c[p.offset], p.mask, p.shift)
            && IsRemainder(c, 0)
  {
    FieldBits(r[p.offset], p, value);
    hide WriteBits, Checksum, IsRemainder, BitsFrom, SameElsewhere;
    SealedIsSealed(r[p.offset := WriteBits(r[p.offset], p, value)]);
    SealedIffDivides(Changed(r, p, value));
  }

  /** Some write turns the cells of `r` into `new'`: a bit is set only where it already was. */
  ghost predicate Reachable(r: Record, new': Record) {
    exists w: Record :: And(r, w) == new'
  }

  lemma {:induction false} OverwritableIffReachable(r: Record, new': Record)
    ensures Overwritable(r, new') <==> Reachable(r, new')
  {
    if Overwritable(r, new') {
      TakesRecord(r, new');
    }
    if Reachable(r, new') {
      var w: Record :| And(r, w) == new';
      forall i | 0 <= i < VB_NVDATA_SIZE
        ensures CanOverwrite(r[i], new'[i])
      {
        assert new'[i] == And(r, w)[i];
        ClearedTwice(r[i], w[i]);
      }
    }
  }

  lemma {:induction false} ClearedTwice(b: bv8, w: bv8)
    ensures CanOverwrite(b, Written(b, w))
  {
  }

  /** What is in the cells of the chosen record after the write. */
  lemma {:induction false} TakesRecord(r: Record, new': Record)
    requires Overwritable(r, new')
    ensures And(r, new') == new'
  {
    forall i | 0 <= i < VB_NVDATA_SIZE
      ensures And(r, new')[i] == new'[i]
    {
      assert CanOverwrite(r[i], new'[i]);
    }
  }

  /**
   * The record goes over the one that counts whenever some write can turn that one into it, else behind the last used
   * record, and only when there is no erased record left into an erased section.
   */
  lemma {:induction false} AppendPlaces(log: Log, new': Record, n: nat)
    requires log != [] && n <= |log|
    requires (forall k :: 0 <= k < n ==> log[k] != EMPTY) && (n < |log| ==> log[n] == EMPTY)
    ensures Append(log, new') ==
              var last := if n == 0 then 0 else n - 1;
              if Reachable(log[last], new') then log[last := new']
              else if n < |log| then log[n := new']
              else [new'] + Blanks(|log| - 1)
    ensures NeedsErase(log, new') <==> n == |log| && !Reachable(log[n - 1], new')
  {
    hide Reachable, Overwritable;
    UsedIs(log, n);
    OverwritableIffReachable(Newest(log), new');
    assert Erased(log)[0 := new'] == [new'] + Blanks(|log| - 1);
  }

  function Blanks(n: nat): Log {
    seq(n, _ => EMPTY)
  }

  lemma {:induction false} EmptyTakesAll(new': Record)
    ensures Overwritable(EMPTY, new')
  {
    forall i | 0 <= i < VB_NVDATA_SIZE
      ensures CanOverwrite(EMPTY[i], new'[i])
    {
      ErasedTakes(new'[i]);
    }
  }

  lemma {:induction false} ErasedTakes(b: bv8)
    ensures CanOverwrite(ERASED, b)
  {
  }

  /** After an append the new record counts, and the used records are still contiguous. */
  lemma {:induction false} AppendLaws(log: Log, new': Record)
    requires log != [] && Contiguous(log) && new' != EMPTY
    ensures |Append(log, new')| == |log| && Contiguous(Append(log, new')) && Newest(Append(log, new')) == new'
    ensures Used(Append(log, new')) ==
              if NeedsErase(log, new') then 1
              else if Overwritable(Newest(log), new') then (if Used(log) == 0 then 1 else Used(log))
              else Used(log) + 1
  {
    var after := Append(log, new');
    if Used(log) == 0 {
      EmptyTakesAll(new');
      UsedIs(after, 1);
    } else if Overwritable(Newest(log), new') {
      UsedIs(after, Used(log));
    } else if Used(log) < |log| {
      UsedIs(after, Used(log) + 1);
    } else {
      UsedIs(after, 1);
    }
  }

  /** An appended record counts exactly when what follows it is erased: a gap in the log would hide it. */
  lemma {:induction false} AppendedCountsIff(log: Log, new': Record)
    requires log != [] && new' != EMPTY && !Overwritable(Newest(log), new') && Used(log) < |log|
    ensures NewestAt(Append(log, new')) == Used(log) <==> Used(log) + 1 == |log| || log[Used(log) + 1] == EMPTY
  {
    var after, n := Append(log, new'), Used(log);
    assert forall k :: 0 <= k < n ==> after[k] != EMPTY;
    if n + 1 == |log| || log[n + 1] == EMPTY {
      UsedIs(after, n + 1);
    } else {
      assert after[n] != EMPTY && after[n + 1] != EMPTY;
    }
  }

  /**
   * Writing the record over the cells the log chooses leaves exactly that
   * record, and only ever clears bits unless the section was erased.
   */
  lemma {:induction false} AppendClearsBits(log: Log, new': Record, k: nat, i: nat)
    requires log != [] && k < |log| && i < VB_NVDATA_SIZE && !NeedsErase(log, new')
    ensures Written(log[k][i], Append(log, new')[k][i]) == Append(log, new')[k][i]
  {
    var after := Append(log, new');
    if after[k] == log[k] {
      WrittenSame(log[k][i]);
    } else if Overwritable(Newest(log), new') {
      assert CanOverwrite(log[k][i], new'[i]);
    } else {
      EmptyTakesAll(new');
      assert CanOverwrite(EMPTY[i], new'[i]);
    }
  }

  lemma {:induction false} WrittenSame(b: bv8)
    ensures Written(b, b) == b
  {
  }

  /** The flag that was set reads back masked; every other flag of the table keeps its value. */
  lemma {:induction false} ChangedFields(r: Record, p: Param, q: Param, value: bv8)
    requires Fits(p) && Fits(q)
    ensures ReadBits(Changed(r, p, value)[p.offset], p) == value & p.mask
    ensures Apart(p, q) ==> ReadBits(Changed(r, p, value)[q.offset], q) == ReadBits(r[q.offset], q)
  {
    hide ReadBits, WriteBits, FieldMask, Checksum;
    ReadWritten(r[p.offset], p, value);
    if Apart(p, q) && p.offset == q.offset {
      ReadOther(r[p.offset], p, q, value);
    }
  }

  /** Setting flag `i` of the table changes flag `i`, no other flag, and leaves the log in order. */
  lemma {:induction false} SetFieldLaws(log: Log, i: nat, value: bv8)
    requires log != [] && Contiguous(log) && i < |PARAM_TABLE|
    ensures Fits(PARAM_TABLE[i])
    ensures var after := SetField(log, PARAM_TABLE[i], value);
            && |after| == |log| && Contiguous(after) && IsSealed(Newest(after))
            && Field(after, PARAM_TABLE[i]) == value & PARAM_TABLE[i].mask
            && forall j: nat :: j < |PARAM_TABLE| && j != i ==>
                 Fits(PARAM_TABLE[j]) && Field(after, PARAM_TABLE[j]) == Field(log, PARAM_TABLE[j])
  {
    hide ReadBits, WriteBits, FieldMask, Checksum, Overwritable, CanOverwrite;
    TableFits(i);
    var p := PARAM_TABLE[i];
    var new' := Changed(Newest(log), p, value);
    SealedIsSealed(Newest(log)[p.offset := WriteBits(Newest(log)[p.offset], p, value)]);
    SealedIsNotEmpty(new');
    AppendLaws(log, new');
    ChangedFields(Newest(log), p, p, value);
    forall j: nat | j < |PARAM_TABLE| && j != i
      ensures Fits(PARAM_TABLE[j]) && Field(SetField(log, p, value), PARAM_TABLE[j]) == Field(log, PARAM_TABLE[j])
    {
      TableApart(i, j);
      ChangedFields(Newest(log), p, PARAM_TABLE[j], value);
    }
  }

  /** Setting a flag to the value it has changes nothing when the checksum is right. */
  lemma {:induction false} SetSameValue(log: Log, p: Param)
    requires log != [] && Fits(p) && IsSealed(Newest(log))
    ensures SetField(log, p, Field(log, p)) == log
  {
    hide ReadBits, WriteBits, FieldMask, Checksum;
    var r := Newest(log);
    RewriteSame(r[p.offset], p);
    assert r[p.offset := r[p.offset]] == r;
    assert Sealed(r) == r;
    forall i | 0 <= i < VB_NVDATA_SIZE
      ensures CanOverwrite(r[i], r[i])
    {
      WrittenSame(r[i]);
    }
  }
}
