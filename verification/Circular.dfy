/** Circular buffers: offset arithmetic of a writer's buffer (src/nvwal_api.c) and the two
    circular copies (src/nvwal_util.c). */
module Circular {
  import opened Base

  // ---------------------------------------------------------------- offsets

  function WrapOffset(size: nat, offset: nat): nat
    requires offset < 2 * size
  {
    if offset < size then offset else offset - size
  }

  /** Bytes from `left` up to `right`, going forward around the buffer. */
  function Distance(size: nat, left: nat, right: nat): nat
    requires left < size && right < size
  {
    if left == right then 0
    else if left < right then right - left
    else right + size - left
  }

  /** Walking and measuring are inverse: this is why the buffer must never become full. */
  lemma DistanceInvertsWrap(size: nat, off: nat, a: nat, b: nat)
    requires off < size && a <= b < size
    ensures Distance(size, WrapOffset(size, off + a), WrapOffset(size, off + b)) == b - a
    ensures WrapOffset(size, off + b) == WrapOffset(size, WrapOffset(size, off + a) + (b - a))
  {
  }

  // ---------------------------------------------------------------- contents

  /** The `n` bytes that start at `off`, continuing at 0 past the end. */
  function CircularRead(buf: seq<byte>, off: nat, n: nat): (r: seq<byte>)
    requires off <= |buf| && n <= |buf|
    ensures |r| == n
  {
    if off + n <= |buf| then buf[off..off + n] else buf[off..] + buf[..off + n - |buf|]
  }

  /** The buffer after storing `src` from `off` on, continuing at 0 past the end. */
  function CircularWrite(buf: seq<byte>, off: nat, src: seq<byte>): (r: seq<byte>)
    requires off <= |buf| && |src| <= |buf|
    ensures |r| == |buf|
  {
    var first := |buf| - off;
    if |src| <= first then buf[..off] + src + buf[off + |src|..]
    else src[first..] + buf[|src| - first..off] + src[..first]
  }

  lemma CircularReadAt(buf: seq<byte>, off: nat, n: nat, i: nat)
    requires off < |buf| && i < n <= |buf|
    ensures CircularRead(buf, off, n)[i] == buf[WrapOffset(|buf|, off + i)]
  {
  }

  lemma CircularWriteAt(buf: seq<byte>, off: nat, src: seq<byte>, i: nat)
    requires off <= |buf| && i < |buf| && |src| <= |buf|
    ensures var k := if off <= i then i - off else i + |buf| - off;
            CircularWrite(buf, off, src)[i] == if k < |src| then src[k] else buf[i]
  {
  }

  /** Appending after `len` live bytes that start at `off`: the live bytes are intact and the
      new ones follow them, whatever wraps where, as long as everything fits. */
  lemma WriteAppends(buf: seq<byte>, off: nat, len: nat, src: seq<byte>)
    requires off < |buf| && len + |src| < |buf|
    ensures var tail := WrapOffset(|buf|, off + len);
            CircularRead(CircularWrite(buf, tail, src), off, len + |src|) == CircularRead(buf, off, len) + src
  {
    var after := CircularWrite(buf, WrapOffset(|buf|, off + len), src);
    var l, r := CircularRead(after, off, len + |src|), CircularRead(buf, off, len) + src;
    forall i | 0 <= i < |l| ensures l[i] == r[i] {
      WriteAppendsAt(buf, off, len, src, i);
    }
  }

  lemma WriteAppendsAt(buf: seq<byte>, off: nat, len: nat, src: seq<byte>, i: nat)
    requires off < |buf| && len + |src| < |buf| && i < len + |src|
    ensures var after := CircularWrite(buf, WrapOffset(|buf|, off + len), src);
            CircularRead(after, off, len + |src|)[i] == (CircularRead(buf, off, len) + src)[i]
  {
    var tail, at := WrapOffset(|buf|, off + len), WrapOffset(|buf|, off + i);
    var after := CircularWrite(buf, tail, src);
    assert after[at] == if i < len then buf[at] else src[i - len] by {
      CircularWriteAt(buf, tail, src, at);
    }
    assert CircularRead(after, off, len + |src|)[i] == after[at] by {
      CircularReadAt(after, off, len + |src|, i);
    }
    if i < len {
      assert CircularRead(buf, off, len)[i] == buf[at] by {
        CircularReadAt(buf, off, len, i);
      }
    }
  }

  /** What was stored is what is read back. */
  lemma ReadAfterWrite(buf: seq<byte>, off: nat, src: seq<byte>)
    requires off <= |buf| && |src| <= |buf|
    ensures CircularRead(CircularWrite(buf, off, src), off, |src|) == src
  {
  }

  /** A run of live bytes splits into a front part and the part after it. */
  lemma ReadSplits(buf: seq<byte>, off: nat, a: nat, b: nat)
    requires off < |buf| && a + b < |buf|
    ensures CircularRead(buf, off, a + b)
         == CircularRead(buf, off, a) + CircularRead(buf, WrapOffset(|buf|, off + a), b)
  {
  }

  // ---------------------------------------------------------------- the copies

  /** memcpy between two different arrays. */
  method Memcpy(dest: array<byte>, to: nat, src: array<byte>, from: nat, n: nat)
    requires dest != src
    requires to + n <= dest.Length && from + n <= src.Length
    modifies dest
    ensures forall i | 0 <= i < dest.Length ::
              dest[i] == if to <= i < to + n then src[from + (i - to)] else old(dest[i])
  {
    forall i | 0 <= i < n {
      dest[to + i] := src[from + i];
    }
  }

  method CircularMemcpy(dest: array<byte>, to: nat, circularSrc: array<byte>, srcOffset: nat, bytesToCopy: nat)
    requires dest != circularSrc
    requires srcOffset <= circularSrc.Length && bytesToCopy <= circularSrc.Length
    requires to + bytesToCopy <= dest.Length
    modifies dest
    ensures dest[to..to + bytesToCopy] == CircularRead(circularSrc[..], srcOffset, bytesToCopy)
    ensures forall i | 0 <= i < dest.Length && !(to <= i < to + bytesToCopy) :: dest[i] == old(dest[i])
  {
    var d, cur, left := to, srcOffset, bytesToCopy;
    if cur + left >= circularSrc.Length {
      var bytes := circularSrc.Length - cur;
      if bytes != 0 {
        Memcpy(dest, d, circularSrc, cur, bytes);
        d := d + bytes;
        left := left - bytes;
      }
      cur := 0;
    }
    Memcpy(dest, d, circularSrc, cur, left);
  }

  method CircularDestMemcpy(circularDest: array<byte>, destOffset: nat, src: array<byte>, bytesToCopy: nat)
    requires circularDest != src
    requires destOffset <= circularDest.Length && bytesToCopy <= circularDest.Length
    requires bytesToCopy <= src.Length
    modifies circularDest
    ensures circularDest[..] == CircularWrite(old(circularDest[..]), destOffset, src[..bytesToCopy])
  {
    var from, cur, left := 0, destOffset, bytesToCopy;
    if cur + left >= circularDest.Length {
      var bytes := circularDest.Length - cur;
      if bytes != 0 {
        Memcpy(circularDest, cur, src, from, bytes);
        from := from + bytes;
        left := left - bytes;
      }
      cur := 0;
    }
    Memcpy(circularDest, cur, src, from, left);
    forall i | 0 <= i < circularDest.Length
      ensures circularDest[i] == CircularWrite(old(circularDest[..]), destOffset, src[..bytesToCopy])[i]
    {
      CircularWriteAt(old(circularDest[..]), destOffset, src[..bytesToCopy], i);
    }
  }

  /** Both copies together: a client stores with one, the flusher fetches with the other. */
  method StoreThenFetch(circular: array<byte>, offset: nat, src: array<byte>, n: nat) returns (fetched: array<byte>)
    requires circular != src && offset <= circular.Length && n <= circular.Length && n <= src.Length
    modifies circular
    ensures fetched[..] == src[..n]
  {
    CircularDestMemcpy(circular, offset, src, n);
    ReadAfterWrite(old(circular[..]), offset, src[..n]);
    fetched := new byte[n](_ => 0);
    CircularMemcpy(fetched, 0, circular, offset, n);
    assert fetched[..] == CircularRead(circular[..], offset, n);
  }
}
