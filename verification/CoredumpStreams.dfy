/** A source that can only be read forwards, in pieces of any size, and a file written at a position. */
module CoredumpStreams {

  const BUF_SIZE: nat := 32768

  /** A pipe. A read may fail, and it may return less than was asked for. */
  class Source {
    const data: seq<bv8>
    var pos: nat
    /** A read has failed. */
    var failed: bool

    constructor (data: seq<bv8>)
      ensures this.data == data && pos == 0 && !failed
    {
      this.data, pos, failed := data, 0, false;
    }

    method Read(n: nat) returns (rv: int, buf: seq<bv8>)
      requires pos <= |data| && n > 0
      modifies this
      ensures rv == -1 ==> failed
      ensures rv != -1 ==>
                rv == |buf| <= n && pos == old(pos) + |buf| <= |data| && buf == data[old(pos)..pos]
                  && failed == old(failed)
      ensures rv == 0 ==> pos == |data|
    {
      if * {
        failed := true;
        return -1, [];
      }
      var left := |data| - pos;
      var most := if n < left then n else left;
      var k: nat :| k <= most && (most > 0 ==> k > 0);
      buf := data[pos..pos + k];
      pos := pos + k;
      rv := k;
    }
  }

  /** `content` with `buf` written at `pos`; a gap in front of it is filled with zeros. */
  function Overlaid(content: seq<bv8>, pos: nat, buf: seq<bv8>): (r: seq<bv8>)
    ensures buf != [] ==> |r| == if pos + |buf| > |content| then pos + |buf| else |content|
    ensures buf != [] ==> r[pos..pos + |buf|] == buf
    ensures pos >= |content| ==> content <= r
  {
    if buf == [] then content
    else
      seq(if pos + |buf| > |content| then pos + |buf| else |content|, i requires i >= 0 =>
        if pos <= i < pos + |buf| then buf[i - pos] else if i < |content| then content[i] else 0)
  }

  lemma {:induction false} OverlaidAtEnd(content: seq<bv8>, buf: seq<bv8>)
    ensures Overlaid(content, |content|, buf) == content + buf
  {
  }

  lemma {:induction false} OverlaidEmpty(content: seq<bv8>, pos: nat, data: seq<bv8>, at: nat)
    requires at <= |data|
    ensures Overlaid(content, pos, data[at..at]) == content
  {
  }

  /** Passing on the next piece of the data. */
  lemma {:induction false} OverlaidNext(content: seq<bv8>, pos: nat, data: seq<bv8>, from: nat, at: nat, to: nat)
    requires from <= at <= to <= |data|
    ensures Overlaid(Overlaid(content, pos, data[from..at]), pos + (at - from), data[at..to]) ==
              Overlaid(content, pos, data[from..to])
  {
    hide Overlaid;
    var a, b := data[from..at], data[at..to];
    assert a + b == data[from..to];
    OverlaidTwice(content, pos, a, b);
  }

  lemma {:induction false} OverlaidTwice(content: seq<bv8>, pos: nat, a: seq<bv8>, b: seq<bv8>)
    ensures Overlaid(Overlaid(content, pos, a), pos + |a|, b) == Overlaid(content, pos, a + b)
  {
    if a == [] {
      assert a + b == b;
    } else if b == [] {
      assert a + b == a;
    }
  }

  class OutFile {
    var content: seq<bv8>
    var pos: nat
    /** A seek or a write has failed. */
    var failed: bool

    constructor ()
      ensures content == [] && pos == 0 && !failed
    {
      content, pos, failed := [], 0, false;
    }

    method Seek(offset: nat) returns (ok: bool)
      modifies this
      ensures content == old(content)
      ensures ok ==> pos == offset && failed == old(failed)
      ensures !ok ==> failed
    {
      if * {
        failed := true;
        return false;
      }
      pos := offset;
      ok := true;
    }

    method WriteFully(buf: seq<bv8>) returns (ok: bool)
      modifies this
      ensures ok ==>
                content == Overlaid(old(content), old(pos), buf) && pos == old(pos) + |buf| && failed == old(failed)
      ensures !ok ==> failed
    {
      if * {
        failed := true;
        return false;
      }
      content := Overlaid(content, pos, buf);
      pos := pos + |buf|;
      ok := true;
    }
  }

  class FdReader {
    const fd: Source
    var bytesRead: nat

    ghost predicate Valid()
      reads this, fd
    {
      bytesRead == fd.pos <= |fd.data|
    }

    constructor (fd: Source)
      requires fd.pos == 0
      ensures Valid() && this.fd == fd && bytesRead == 0
    {
      this.fd, bytesRead := fd, 0;
    }

    /** Reads the next `n` bytes; short of a failing read it only fails at the end of the data. */
    method Read(n: nat) returns (ok: bool, buf: seq<bv8>)
      requires Valid()
      modifies this, fd
      ensures ok ==> Valid() && fd.failed == old(fd.failed)
      ensures ok ==> bytesRead == old(bytesRead) + n && buf == fd.data[old(bytesRead)..bytesRead]
      ensures !ok ==> fd.failed || old(bytesRead) + n > |fd.data|
    {
      buf := [];
      while |buf| < n
        invariant fd.pos == old(bytesRead) + |buf| <= |fd.data| && |buf| <= n && bytesRead == old(bytesRead)
        invariant buf == fd.data[old(bytesRead)..fd.pos] && fd.failed == old(fd.failed)
        decreases n - |buf|
      {
        var rv, piece := fd.Read(n - |buf|);
        if rv == -1 || rv == 0 {
          return false, buf;
        }
        buf := buf + piece;
      }
      bytesRead := bytesRead + n;
      ok := true;
    }

    /** Passes the next `n` bytes on to `dest`, or drops them when there is none, whatever pieces they arrive in. */
    method CopyTo(dest: OutFile?, n: nat) returns (ok: bool)
      requires Valid()
      modifies this, fd, dest
      ensures ok ==> Valid() && bytesRead == old(bytesRead) + n && fd.failed == old(fd.failed)
      ensures ok && dest != null ==>
                dest.content == Overlaid(old(dest.content), old(dest.pos), fd.data[old(bytesRead)..bytesRead])
                                     && dest.failed == old(dest.failed)
      ensures !ok ==> fd.failed || (dest != null && dest.failed) || old(bytesRead) + n > |fd.data|
    {
      hide Overlaid;
      var left := n;
      if dest != null {
        OverlaidEmpty(dest.content, dest.pos, fd.data, bytesRead);
      }
      while left > 0
        invariant 0 <= left <= n && Valid() && bytesRead == old(bytesRead) + (n - left) && fd.failed == old(fd.failed)
        invariant dest != null ==>
                    && dest.content == Overlaid(old(dest.content), old(dest.pos), fd.data[old(bytesRead)..bytesRead])
                    && dest.pos == old(dest.pos) + (n - left) && dest.failed == old(dest.failed)
        decreases left
      {
        ghost var from := bytesRead;
        var rv, buf := fd.Read(if BUF_SIZE < left then BUF_SIZE else left);
        if rv == 0 {
          break;
        }
        if rv == -1 {
          return false;
        }
        if dest != null {
          var written := dest.WriteFully(buf);
          if !written {
            return false;
          }
          OverlaidNext(old(dest.content), old(dest.pos), fd.data, old(bytesRead), from, fd.pos);
        }
        left := left - rv;
        bytesRead := bytesRead + rv;
      }
      ok := left == 0;
    }

    /** Drops data up to `offset`; going back is refused. */
    method Seek(offset: nat) returns (ok: bool)
      requires Valid()
      modifies this, fd
      ensures ok ==> Valid() && old(bytesRead) <= offset == bytesRead && fd.failed == old(fd.failed)
      ensures !ok ==> fd.failed || offset < old(bytesRead) || offset > |fd.data|
    {
      if offset < bytesRead {
        return false;
      }
      ok := CopyTo(null, offset - bytesRead);
    }
  }
}
