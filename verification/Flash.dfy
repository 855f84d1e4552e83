/** A NOR flash chip: erasing sets every bit, writing can only clear bits. */
module Flash {

  const ERASED: bv8 := 0xFF

  function Blank(n: nat): seq<bv8> {
    seq(n, _ => ERASED)
  }

  /** What a cell holds after `b` is written to it. */
  function Written(cell: bv8, b: bv8): bv8 {
    cell & b
  }

  function And(a: seq<bv8>, b: seq<bv8>): (r: seq<bv8>)
    requires |a| == |b|
    ensures |r| == |a|
  {
    seq(|a|, i requires 0 <= i < |a| => Written(a[i], b[i]))
  }

  /** `s` with the bytes from `off` on replaced by `data`. */
  function Patched(s: seq<bv8>, off: nat, data: seq<bv8>): (r: seq<bv8>)
    requires off + |data| <= |s|
    ensures |r| == |s|
  {
    s[..off] + data + s[off + |data|..]
  }

  class FlashDevice {
    const mem: array<bv8>
    const writeSize: nat
    const eraseSize: nat

    constructor (mem: array<bv8>, writeSize: nat, eraseSize: nat)
      ensures this.mem == mem && this.writeSize == writeSize && this.eraseSize == eraseSize
    {
      this.mem, this.writeSize, this.eraseSize := mem, writeSize, eraseSize;
    }

    predicate Valid() {
      writeSize > 0 && eraseSize > 0
    }

    predicate CanWrite(off: nat, len: nat)
      requires Valid()
    {
      off % writeSize == 0 && len % writeSize == 0
    }

    predicate CanErase(off: nat, len: nat)
      requires Valid()
    {
      off % eraseSize == 0 && len % eraseSize == 0
    }

    method Read(off: nat, len: nat) returns (buff: seq<bv8>)
      requires off + len <= mem.Length
      ensures buff == mem[off..off + len]
    {
      buff := mem[off..off + len];
    }

    /** Clears the bits that are clear in `data`; a misaligned write is refused. */
    method Write(off: nat, data: seq<bv8>) returns (ok: bool)
      requires Valid() && off + |data| <= mem.Length
      modifies mem
      ensures ok <==> CanWrite(off, |data|)
      ensures ok ==> mem[..] == Patched(old(mem[..]), off, And(old(mem[..])[off..off + |data|], data))
      ensures ok ==> forall k :: 0 <= k < mem.Length ==>
                       mem[k] == if off <= k < off + |data| then old(mem[k]) & data[k - off] else old(mem[k])
      ensures !ok ==> mem[..] == old(mem[..])
    {
      if off % writeSize != 0 || |data| % writeSize != 0 {
        return false;
      }
      hide Written;
      for i := 0 to |data|
        invariant forall k :: 0 <= k < mem.Length ==>
                    mem[k] == if off <= k < off + i then Written(old(mem[k]), data[k - off]) else old(mem[k])
      {
        mem[off + i] := Written(mem[off + i], data[i]);
      }
      ok := true;
    }

    /** Sets all bits of whole blocks; a misaligned erase is refused. */
    method Erase(off: nat, len: nat) returns (ok: bool)
      requires Valid() && off + len <= mem.Length
      modifies mem
      ensures ok <==> CanErase(off, len)
      ensures ok ==> mem[..] == Patched(old(mem[..]), off, Blank(len))
      ensures ok ==> forall k :: 0 <= k < mem.Length ==> mem[k] == if off <= k < off + len then 0xFF else old(mem[k])
      ensures !ok ==> mem[..] == old(mem[..])
    {
      if off % eraseSize != 0 || len % eraseSize != 0 {
        return false;
      }
      for i := 0 to len
        invariant forall k :: 0 <= k < mem.Length ==> mem[k] == if off <= k < off + i then ERASED else old(mem[k])
      {
        mem[off + i] := ERASED;
      }
      ok := true;
    }
  }
}
