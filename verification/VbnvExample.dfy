/** A flash on which a refused setting loses the other flags. */
module VbnvExample {
  import opened Flash
  import opened VbnvRecords
  import opened VbnvFields
  import opened VbnvLog
  import opened Vbnv

  function Zeros(): Record {
    seq(VB_NVDATA_SIZE, _ => 0)
  }

  /** Used records of zeros fill the section, and no flag can be set in place. */
  lemma {:induction false} FullOfZeros(log: Log, new': Record)
    requires log == [Zeros(), Zeros()] && new'[VB_BOOT_OFFSET] != 0
    ensures Newest(log) == Zeros() && NeedsErase(log, new')
  {
    var r := Zeros();
    assert r[0] == 0 && EMPTY[0] == ERASED;
    UsedIs(log, 2);
    assert !CanOverwrite(r[VB_BOOT_OFFSET], new'[VB_BOOT_OFFSET]);
  }

  lemma {:induction false} ZerosTwice(s: seq<bv8>)
    requires |s| == 32 && forall i :: 0 <= i < 32 ==> s[i] == 0
    ensures Records(s) == [Zeros(), Zeros()]
  {
    assert s[0..16] == Zeros() && s[16..32] == Zeros();
  }

  lemma {:induction false} ErasedNewest(log: Log)
    requires |log| == 2
    ensures Newest(Erased(log)) == EMPTY
  {
  }

  /** Counting one try in that record. */
  lemma {:induction false} TryCounted(r: Record)
    requires r == Zeros()
    ensures Fits(PARAM_TABLE[0]) && Changed(r, PARAM_TABLE[0], 1)[VB_BOOT_OFFSET] != 0
  {
    hide Checksum;
    TableFits(0);
    assert WriteBits(0, Param("try_count", true, VB_BOOT_OFFSET, 0, 0xf), 1) == 1;
  }

  lemma {:induction false} UsbFlag(r: Record)
    ensures Fits(PARAM_TABLE[10])
    ensures r == Zeros() ==> ReadBits(r[PARAM_TABLE[10].offset], PARAM_TABLE[10]) == 0
    ensures r == EMPTY ==> ReadBits(r[PARAM_TABLE[10].offset], PARAM_TABLE[10]) == 1
  {
    TableFits(10);
    var p := Param("dev_boot_usb", true, VB_DEV_OFFSET, 0, VB_DEFAULT_MASK);
    assert ReadBits(0, p) == 0 && ReadBits(ERASED, p) == 1;
  }

  lemma {:induction false} UsbFlagNamed()
    ensures Named(10, "dev_boot_usb")
  {
    hide Fits;
    forall j | 0 <= j < 10
      ensures PARAM_TABLE[j].name[2] != 'v' || PARAM_TABLE[j].name[4] != 'b'
    {
    }
  }

  /** Setting one flag fails, and another one has a new value afterwards. */
  method UsbFlagIsLost() returns (dev: FlashDevice, ok: bool, before: Access, after: Access)
    ensures fresh(dev) && !ok && before == Get(0) && after == Get(1)
  {
    var mem := new bv8[32](_ => 0);
    dev := new FlashDevice(mem, 32, 32);
    var area := Area(0, 32);
    ghost var log := LogOf(mem[..], area);
    assert log == [Zeros(), Zeros()] by {
      ZerosTwice(mem[..]);
      assert mem[..][0..32] == mem[..];
    }
    FullOfZeros(log, Changed(Zeros(), PARAM_TABLE[0], 1)) by { TryCounted(Zeros()); }
    UsbFlag(Zeros());
    UsbFlag(EMPTY);
    ErasedNewest(log);
    assert CanSet(0, "try_count");
    UsbFlagNamed();
    hide Changed, Newest, Append, LogOf, ReadBits, NeedsErase;
    before := GetFlag(dev, area, "dev_boot_usb");
    ok := SetFlag(dev, area, "try_count", 1);
    after := GetFlag(dev, area, "dev_boot_usb");
  }
}
