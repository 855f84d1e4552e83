/** Records of the boot flags: packed fields and a checksum. */
module VbnvRecords {
  import opened Flash

  const VB_BOOT_OFFSET: nat := 1
  const VB_RECOVERY_OFFSET: nat := 2
  const VB_DEV_OFFSET: nat := 4
  const VB_TPM_OFFSET: nat := 5
  const VB_BOOT2_OFFSET: nat := 7
  const VB_MISC_OFFSET: nat := 8
  const VB_CRC_OFFSET: nat := 15
  const VB_NVDATA_SIZE: nat := 16

  type Record = r: seq<bv8> | |r| == VB_NVDATA_SIZE witness Blank(VB_NVDATA_SIZE)

  // ----- the checksum -----

  /** The polynomial 0x1070 of the checksum, shifted left by 3. */
  const POLYNOMIAL: bv32 := 0x8380

  function CrcBit(crc: bv32): bv32 {
    if crc & 0x8000 != 0 then (crc ^ POLYNOMIAL) << 1 else crc << 1
  }

  function CrcBits(crc: bv32, n: nat): bv32 {
    if n == 0 then crc else CrcBit(CrcBits(crc, n - 1))
  }

  function Feed(crc: bv32, b: bv8): bv32 {
    CrcBits(crc ^ ((b as bv32) << 8), 8)
  }

  function CrcOf(data: seq<bv8>): bv32 {
    if data == [] then 0 else Feed(CrcOf(data[..|data| - 1]), data[|data| - 1])
  }

  function SecondByte(crc: bv32): bv8 {
    ((crc >> 8) & 0xFF) as bv8
  }

  function Checksum(data: seq<bv8>): bv8 {
    SecondByte(CrcOf(data))
  }

  method ShiftBit(crc: bv32) returns (r: bv32)
    ensures r == CrcBit(crc)
  {
    r := crc;
    if r & 0x8000 != 0 {
      r := r ^ POLYNOMIAL;
    }
    r := r << 1;
  }

  method FeedByte(crc: bv32, b: bv8) returns (r: bv32)
    ensures r == Feed(crc, b)
  {
    hide CrcBit;
    r := crc ^ ((b as bv32) << 8);
    ghost var start := r;
    for i := 0 to 8
      invariant r == CrcBits(start, i)
    {
      r := ShiftBit(r);
    }
  }

  method Crc8(data: seq<bv8>) returns (r: bv8)
    ensures r == Checksum(data) && IsRemainder(data, r)
  {
    hide Feed, SecondByte;
    var crc: bv32 := 0;
    for j := 0 to |data|
      invariant crc == CrcOf(data[..j])
    {
      crc := FeedByte(crc, data[j]);
      assert data[..j + 1][..j] == data[..j];
    }
    assert data[..|data|] == data;
    r := SecondByte(crc);
    ChecksumIsRemainder(data, r);
  }

  lemma {:induction false} EightBits(crc: bv32)
    ensures CrcBits(crc, 8) == CrcBit(CrcBit(CrcBit(CrcBit(CrcBit(CrcBit(CrcBit(CrcBit(crc))))))))
  {
    hide CrcBit;
    assert CrcBits(crc, 1) == CrcBit(CrcBits(crc, 0));
    assert CrcBits(crc, 2) == CrcBit(CrcBits(crc, 1));
    assert CrcBits(crc, 3) == CrcBit(CrcBits(crc, 2));
    assert CrcBits(crc, 4) == CrcBit(CrcBits(crc, 3));
    assert CrcBits(crc, 5) == CrcBit(CrcBits(crc, 4));
    assert CrcBits(crc, 6) == CrcBit(CrcBits(crc, 5));
    assert CrcBits(crc, 7) == CrcBit(CrcBits(crc, 6));
  }

  lemma {:induction false} Fed(data: seq<bv8>, b: bv8, fed: bv32, after: bv32)
    requires data != [] && data[|data| - 1] == b && CrcOf(data[..|data| - 1]) ^ ((b as bv32) << 8) == fed
    requires CrcBit(CrcBit(CrcBit(CrcBit(CrcBit(CrcBit(CrcBit(CrcBit(fed)))))))) == after
    ensures CrcOf(data) == after
  {
    hide CrcBit;
    EightBits(fed);
  }

  lemma {:induction false} FedErased(n: nat, before: bv32, after: bv32)
    requires CrcOf(Blank(n)) == before
    requires CrcBit(CrcBit(CrcBit(CrcBit(CrcBit(CrcBit(CrcBit(CrcBit(before ^ 0xFF00)))))))) == after
    ensures CrcOf(Blank(n + 1)) == after
  {
    hide CrcBit, CrcOf;
    assert Blank(n + 1)[..|Blank(n + 1)| - 1] == Blank(n);
    assert (ERASED as bv32) << 8 == 0xFF00;
    Fed(Blank(n + 1), ERASED, before ^ 0xFF00, after);
  }

  /** The checksum of fifteen erased bytes is not an erased byte. */
  lemma {:induction false} BlankIsNotSealed()
    ensures Checksum(Blank(VB_CRC_OFFSET)) == 0x03
  {
    FedErased(0, 0x0000, 0xF300);
    FedErased(1, 0xF300, 0x2400);
    FedErased(2, 0x2400, 0x0F00);
    FedErased(3, 0x0F00, 0xDE00);
    FedErased(4, 0xDE00, 0xE700);
    FedErased(5, 0xE700, 0x4800);
    FedErased(6, 0x4800, 0x0C00);
    FedErased(7, 0x0C00, 0xD700);
    FedErased(8, 0xD700, 0xD800);
    FedErased(9, 0xD800, 0xF500);
    FedErased(10, 0xF500, 0x3600);
    FedErased(11, 0x3600, 0x7100);
    FedErased(12, 0x7100, 0xA300);
    FedErased(13, 0xA300, 0x9300);
    FedErased(14, 0x9300, 0x0300);
  }

  /** The checksum tells three bytes from the same bytes in another order. */
  lemma {:induction false} OrderMatters()
    ensures Checksum([0x01, 0x02, 0x03]) == 0x48 && Checksum([0x03, 0x02, 0x01]) == 0x90
  {
    var up, down: seq<bv8> := [0x01, 0x02, 0x03], [0x03, 0x02, 0x01];
    assert up[..3] == up && up[..2][..1] == up[..1] && up[..1][..0] == [];
    assert down[..3] == down && down[..2][..1] == down[..1] && down[..1][..0] == [];
    Fed(up[..1], 0x01, 0x0100, 0x0700);
    Fed(up[..2], 0x02, 0x0500, 0x1B00);
    Fed(up, 0x03, 0x1800, 0x4800);
    Fed(down[..1], 0x03, 0x0300, 0x0900);
    Fed(down[..2], 0x02, 0x0B00, 0x3100);
    Fed(down, 0x01, 0x3000, 0x9000);
  }

  // ----- what the checksum is -----

  /** Bit `j` of a byte, counted from the highest. */
  predicate Bit(b: bv8, j: nat)
    requires j < 8
  {
    match j
    case 0 => b & 0x80 != 0
    case 1 => b & 0x40 != 0
    case 2 => b & 0x20 != 0
    case 3 => b & 0x10 != 0
    case 4 => b & 0x08 != 0
    case 5 => b & 0x04 != 0
    case 6 => b & 0x02 != 0
    case _ => b & 0x01 != 0
  }

  /** The bits of the data, the first byte first and each byte from its highest bit. */
  function BitsOf(data: seq<bv8>): (bits: seq<bool>)
    ensures |bits| == 8 * |data|
  {
    seq(8 * |data|, k requires 0 <= k < 8 * |data| => Bit(data[k / 8], k % 8))
  }

  /** The coefficient of x^i in the polynomial with these coefficients, the highest first. */
  predicate Coefficient(bits: seq<bool>, i: int) {
    0 <= i < |bits| && bits[|bits| - 1 - i]
  }

  predicate ByteCoefficient(r: bv8, i: int) {
    0 <= i < 8 && Bit(r, 7 - i)
  }

  /** `bits` times x^8 is `q` times x^8 + x^2 + x + 1, plus `r`; coefficients are added modulo 2. */
  ghost predicate Divides(bits: seq<bool>, q: seq<bool>, r: bv8) {
    forall i: int :: DividesAt(bits, q, r, i)
  }

  ghost predicate DividesAt(bits: seq<bool>, q: seq<bool>, r: bv8, i: int) {
    Coefficient(bits, i - 8) == (Product(q, i) != ByteCoefficient(r, i))
  }

  /** The coefficient of x^i in the product of `q` and x^8 + x^2 + x + 1. */
  ghost predicate Product(q: seq<bool>, i: int) {
    (Coefficient(q, i - 8) != Coefficient(q, i - 2)) != (Coefficient(q, i - 1) != Coefficient(q, i))
  }

  /** `r` is the remainder of the data times x^8 modulo x^8 + x^2 + x + 1. */
  ghost predicate IsRemainder(data: seq<bv8>, r: bv8) {
    exists q :: Divides(BitsOf(data), q, r)
  }

  // ----- why it is that -----

  /** The remainder with one more bit. */
  function ShiftIn(r: bv8, bit: bool): bv8 {
    (r << 1) ^ (if (r & 0x80 != 0) != bit then 0x07 else 0x00)
  }

  lemma {:induction false} ShiftedCoefficient(r: bv8, bit: bool, i: int)
    ensures 0 <= i < 8 ==>
              ByteCoefficient(ShiftIn(r, bit), i) ==
                (ByteCoefficient(r, i - 1) != (i <= 2 && ByteCoefficient(r, 7) != bit))
  {
    // One case for each bit.
    match i
    case 0 => case 1 => case 2 => case 3 => case 4 => case 5 => case 6 => case _ =>
  }

  lemma {:induction false} AppendedCoefficient(bits: seq<bool>, bit: bool, i: int)
    ensures Coefficient(bits + [bit], i) == if i == 0 then bit else Coefficient(bits, i - 1)
  {
  }

  lemma {:induction false} NextBit(bits: seq<bool>, q: seq<bool>, r: bv8, bit: bool)
    requires Divides(bits, q, r)
    ensures Divides(bits + [bit], q + [ByteCoefficient(r, 7) != bit], ShiftIn(r, bit))
  {
    var t := ByteCoefficient(r, 7) != bit;
    hide Coefficient, ByteCoefficient, ShiftIn;
    forall i: int
      ensures DividesAt(bits + [bit], q + [t], ShiftIn(r, bit), i)
    {
      NextBitAt(bits, q, r, bit, i);
    }
  }

  lemma {:induction false} NextBitAt(bits: seq<bool>, q: seq<bool>, r: bv8, bit: bool, i: int)
    requires Divides(bits, q, r)
    ensures DividesAt(bits + [bit], q + [ByteCoefficient(r, 7) != bit], ShiftIn(r, bit), i)
  {
    var t := ByteCoefficient(r, 7) != bit;
    assert DividesAt(bits, q, r, i - 1);
    ShiftedCoefficient(r, bit, i);
    AppendedCoefficient(bits, bit, i - 8);
    AppendedCoefficient(q, t, i - 8);
    AppendedCoefficient(q, t, i - 2);
    AppendedCoefficient(q, t, i - 1);
    AppendedCoefficient(q, t, i);
    NoCoefficient(bits, q, r, ShiftIn(r, bit), i);
    hide Coefficient, ByteCoefficient, ShiftIn, Divides;
  }

  lemma {:induction false} NoCoefficient(bits: seq<bool>, q: seq<bool>, r: bv8, r': bv8, i: int)
    ensures i <= 0 ==> !Coefficient(q, i - 1) && !ByteCoefficient(r, i - 1)
    ensures i < 8 ==> !Coefficient(bits, i - 9) && !Coefficient(q, i - 9)
    ensures i <= 2 ==> !Coefficient(q, i - 3)
    ensures i <= 1 ==> !Coefficient(q, i - 2)
    ensures i < 0 || i >= 8 ==> !ByteCoefficient(r', i)
    ensures i >= 9 ==> !ByteCoefficient(r, i - 1)
  {
  }

  /** The remainder with the first `n` bits of one more byte. */
  function ShiftInBits(r: bv8, b: bv8, n: nat): bv8
    requires n <= 8
  {
    if n == 0 then r else ShiftIn(ShiftInBits(r, b, n - 1), Bit(b, n - 1))
  }

  lemma {:induction false} NextBits(bits: seq<bool>, q: seq<bool>, r: bv8, b: bv8, n: nat) returns (q': seq<bool>)
    requires Divides(bits, q, r) && n <= 8
    ensures Divides(bits + BitsOf([b])[..n], q', ShiftInBits(r, b, n))
  {
    hide Divides, ShiftIn, Bit;
    if n == 0 {
      q' := q;
      assert bits + BitsOf([b])[..n] == bits;
    } else {
      q' := NextBits(bits, q, r, b, n - 1);
      var done := ShiftInBits(r, b, n - 1);
      NextBit(bits + BitsOf([b])[..n - 1], q', done, Bit(b, n - 1));
      q' := q' + [ByteCoefficient(done, 7) != Bit(b, n - 1)];
      assert BitsOf([b])[n - 1] == Bit(b, n - 1);
      assert bits + BitsOf([b])[..n] == bits + BitsOf([b])[..n - 1] + [Bit(b, n - 1)];
    }
  }

  lemma {:induction false} BitsAppended(data: seq<bv8>, b: bv8)
    ensures BitsOf(data + [b]) == BitsOf(data) + BitsOf([b])
  {
    var all, n := data + [b], 8 * |data|;
    forall k | 0 <= k < n + 8
      ensures BitsOf(all)[k] == (BitsOf(data) + BitsOf([b]))[k]
    {
      if k >= n {
        assert k / 8 == |data| && k % 8 == k - n;
      }
    }
  }

  lemma {:induction false} NextByte(data: seq<bv8>, b: bv8, r: bv8)
    requires IsRemainder(data, r)
    ensures IsRemainder(data + [b], ShiftInBits(r, b, 8))
  {
    hide Divides, ShiftInBits;
    var q :| Divides(BitsOf(data), q, r);
    var q' := NextBits(BitsOf(data), q, r, b, 8);
    BitsAppended(data, b);
    assert BitsOf([b])[..8] == BitsOf([b]);
  }

  // ----- why the register holds it -----

  function Xor(a: bv8, b: bv8): bv8 {
    a ^ b
  }

  function Doubled(b: bv8): bv8 {
    b << 1
  }

  predicate Top(b: bv8) {
    b & 0x80 != 0
  }

  /** What is still to be shifted in of a byte after `n` bits. */
  function Ahead(b: bv8, n: nat): bv8 {
    if n == 0 then b else Doubled(Ahead(b, n - 1))
  }

  function Shifted(b: bv8, n: nat): bv8 {
    match n
    case 0 => b
    case 1 => b << 1
    case 2 => b << 2
    case 3 => b << 3
    case 4 => b << 4
    case 5 => b << 5
    case 6 => b << 6
    case 7 => b << 7
    case _ => 0
  }

  lemma {:induction false} ShiftedNext(b: bv8, n: nat)
    requires n < 8
    ensures Doubled(Shifted(b, n)) == Shifted(b, n + 1)
  {
    // One case for each bit.
    match n
    case 0 => case 1 => case 2 => case 3 => case 4 => case 5 => case 6 => case _ =>
  }

  lemma {:induction false} AheadIsShifted(b: bv8, n: nat)
    requires n <= 8
    ensures Ahead(b, n) == Shifted(b, n)
  {
    if n > 0 {
      hide Shifted, Doubled;
      AheadIsShifted(b, n - 1);
      ShiftedNext(b, n - 1);
    }
  }

  lemma {:induction false} AheadBit(b: bv8, n: nat)
    requires n <= 8
    ensures if n == 8 then Ahead(b, n) == 0 else Top(Ahead(b, n)) <==> Bit(b, n)
  {
    AheadIsShifted(b, n);
    hide Ahead;
    // One case for each bit.
    match n
    case 0 => case 1 => case 2 => case 3 => case 4 => case 5 => case 6 => case 7 => case _ =>
  }

  lemma {:induction false} TopOfXor(a: bv8, b: bv8)
    ensures Top(Xor(a, b)) <==> Top(a) != Top(b)
  {
  }

  lemma {:induction false} DoubledXor(a: bv8, b: bv8, c: bv8)
    ensures Xor(Doubled(Xor(a, b)), c) == Xor(Xor(Doubled(a), c), Doubled(b))
  {
  }

  lemma {:induction false} ShiftInXor(r: bv8, bit: bool)
    ensures ShiftIn(r, bit) == Xor(Doubled(r), if Top(r) != bit then 0x07 else 0x00)
  {
  }

  lemma {:induction false} Folded(r: bv8, ahead: bv8)
    ensures ShiftIn(Xor(r, ahead), false) == Xor(ShiftIn(r, Top(ahead)), Doubled(ahead))
  {
    hide ShiftIn, Top, Xor, Doubled;
    TopOfXor(r, ahead);
    ShiftInXor(Xor(r, ahead), false);
    ShiftInXor(r, Top(ahead));
    DoubledXor(r, ahead, if Top(r) != Top(ahead) then 0x07 else 0x00);
  }

  predicate LowByteClear(crc: bv32) {
    crc & 0xFF == 0
  }

  /** One step of the register: only its second byte matters. */
  lemma {:induction false} RegisterStep(crc: bv32)
    requires LowByteClear(crc)
    ensures LowByteClear(CrcBit(crc)) && SecondByte(CrcBit(crc)) == ShiftIn(SecondByte(crc), false)
  {
  }

  lemma {:induction false} RegisterBits(crc: bv32, r: bv8, b: bv8, n: nat)
    requires LowByteClear(crc) && SecondByte(crc) == Xor(r, b) && n <= 8
    ensures LowByteClear(CrcBits(crc, n)) && SecondByte(CrcBits(crc, n)) == Xor(ShiftInBits(r, b, n), Ahead(b, n))
  {
    hide CrcBit, SecondByte, ShiftIn, Bit, Top, Xor, Doubled, LowByteClear;
    if n > 0 {
      RegisterBits(crc, r, b, n - 1);
      RegisterStep(CrcBits(crc, n - 1));
      Folded(ShiftInBits(r, b, n - 1), Ahead(b, n - 1));
      AheadBit(b, n - 1);
    }
  }

  lemma {:induction false} FedRegister(crc: bv32, b: bv8)
    requires LowByteClear(crc)
    ensures var fed := crc ^ ((b as bv32) << 8);
            LowByteClear(fed) && SecondByte(fed) == Xor(SecondByte(crc), b)
  {
  }

  lemma {:induction false} XorZero(b: bv8)
    ensures Xor(b, 0) == b
  {
  }

  lemma {:induction false} FeedShiftsIn(crc: bv32, b: bv8)
    requires LowByteClear(crc)
    ensures LowByteClear(Feed(crc, b)) && SecondByte(Feed(crc, b)) == ShiftInBits(SecondByte(crc), b, 8)
  {
    hide CrcBits, SecondByte, ShiftInBits, Ahead, LowByteClear, Xor;
    FedRegister(crc, b);
    RegisterBits(crc ^ ((b as bv32) << 8), SecondByte(crc), b, 8);
    AheadBit(b, 8);
    XorZero(ShiftInBits(SecondByte(crc), b, 8));
  }

  lemma {:induction false} RegisterIsRemainder(data: seq<bv8>)
    ensures LowByteClear(CrcOf(data)) && IsRemainder(data, SecondByte(CrcOf(data)))
  {
    hide Feed, SecondByte, IsRemainder, ShiftInBits, LowByteClear;
    if data == [] {
      NoBytes();
    } else {
      var init, b := data[..|data| - 1], data[|data| - 1];
      RegisterIsRemainder(init);
      FeedShiftsIn(CrcOf(init), b);
      NextByte(init, b, SecondByte(CrcOf(init)));
      assert init + [b] == data;
    }
  }

  lemma {:induction false} NoBytes()
    ensures LowByteClear(0) && SecondByte(0) == 0 && IsRemainder([], 0)
  {
    assert Divides(BitsOf([]), [], 0);
  }

  /** The quotient is determined from its highest coefficient down. */
  lemma {:induction false} QuotientUnique(bits: seq<bool>, q: seq<bool>, r: bv8, q': seq<bool>, r': bv8, i: int)
    requires Divides(bits, q, r) && Divides(bits, q', r')
    ensures forall j: int :: j >= i ==> Coefficient(q, j) == Coefficient(q', j)
    decreases if i < |q| || i < |q'| then |q| + |q'| - i else 0
  {
    if 0 <= i && (i < |q| || i < |q'|) {
      QuotientUnique(bits, q, r, q', r', i + 1);
      assert DividesAt(bits, q, r, i + 8) && DividesAt(bits, q', r', i + 8);
    } else if i < 0 {
      QuotientUnique(bits, q, r, q', r', 0);
    }
  }

  lemma {:induction false} SameBits(r: bv8, r': bv8)
    requires Bit(r, 0) == Bit(r', 0) && Bit(r, 1) == Bit(r', 1) && Bit(r, 2) == Bit(r', 2) && Bit(r, 3) == Bit(r', 3)
    requires Bit(r, 4) == Bit(r', 4) && Bit(r, 5) == Bit(r', 5) && Bit(r, 6) == Bit(r', 6) && Bit(r, 7) == Bit(r', 7)
    ensures r == r'
  {
  }

  lemma {:induction false} SameCoefficients(r: bv8, r': bv8)
    requires forall i: int :: ByteCoefficient(r, i) == ByteCoefficient(r', i)
    ensures r == r'
  {
    forall j: nat | j < 8
      ensures Bit(r, j) == Bit(r', j)
    {
      assert ByteCoefficient(r, 7 - j) == ByteCoefficient(r', 7 - j);
    }
    SameBits(r, r');
  }

  lemma {:induction false} RemainderUnique(data: seq<bv8>, r: bv8, r': bv8)
    requires IsRemainder(data, r) && IsRemainder(data, r')
    ensures r == r'
  {
    var bits := BitsOf(data);
    var q :| Divides(bits, q, r);
    var q' :| Divides(bits, q', r');
    QuotientUnique(bits, q, r, q', r', 0);
    hide Bit, BitsOf;
    forall i: int
      ensures ByteCoefficient(r, i) == ByteCoefficient(r', i)
    {
      assert DividesAt(bits, q, r, i) && DividesAt(bits, q', r', i);
    }
    SameCoefficients(r, r');
  }

  /** The checksum is the remainder, and nothing else is. */
  lemma {:induction false} ChecksumIsRemainder(data: seq<bv8>, r: bv8)
    ensures IsRemainder(data, r) <==> r == Checksum(data)
  {
    RegisterIsRemainder(data);
    if IsRemainder(data, r) {
      RemainderUnique(data, r, Checksum(data));
    }
  }

  // ----- the checksum behind its data -----

  function Steps(r: bv8, n: nat): bv8 {
    if n == 0 then r else ShiftIn(Steps(r, n - 1), false)
  }

  lemma {:induction false} ShiftInBitsFolds(r: bv8, b: bv8, n: nat)
    requires n <= 8
    ensures Xor(ShiftInBits(r, b, n), Ahead(b, n)) == Steps(Xor(r, b), n)
  {
    hide ShiftIn, Bit, Top, Xor, Doubled;
    if n > 0 {
      ShiftInBitsFolds(r, b, n - 1);
      Folded(ShiftInBits(r, b, n - 1), Ahead(b, n - 1));
      AheadBit(b, n - 1);
    }
  }

  lemma {:induction false} OnlyZeroVanishes(r: bv8)
    ensures ShiftIn(r, false) == 0 <==> r == 0
  {
  }

  lemma {:induction false} StepsVanish(r: bv8, n: nat)
    ensures Steps(r, n) == 0 <==> r == 0
  {
    hide ShiftIn;
    if n > 0 {
      StepsVanish(r, n - 1);
      OnlyZeroVanishes(Steps(r, n - 1));
    }
  }

  lemma {:induction false} XorVanishes(a: bv8, b: bv8)
    ensures Xor(a, b) == 0 <==> a == b
  {
  }

  /** Data with one more byte behind it divides exactly when that byte is the checksum. */
  lemma {:induction false} DividesIffChecksum(data: seq<bv8>, b: bv8)
    ensures IsRemainder(data + [b], 0) <==> b == Checksum(data)
  {
    hide Feed, Bit, SecondByte, IsRemainder, ShiftInBits, LowByteClear, Steps, Ahead, Xor;
    var r := Checksum(data);
    assert (data + [b])[..|data|] == data;
    RegisterIsRemainder(data);
    FeedShiftsIn(CrcOf(data), b);
    ShiftInBitsFolds(r, b, 8);
    AheadBit(b, 8);
    XorZero(ShiftInBits(r, b, 8));
    StepsVanish(Xor(r, b), 8);
    XorVanishes(r, b);
    ChecksumIsRemainder(data + [b], 0);
  }
}
