/**
 * The parts of `java.nio` the stack history writer uses: a heap byte buffer with its
 * position and limit, and a file channel positioned over the bytes of one file.
 */
module JavaNio {
  import opened JavaStrings

  function Min(a: int, b: int): (r: int)
    ensures r <= a && r <= b && (r == a || r == b)
  {
    if a <= b then a else b
  }

  /** How many bytes a file holding `content` has from `position` on. */
  function Available(content: seq<byte>, position: nat): (n: nat)
    ensures position + n <= |content| || n == 0
    ensures position <= |content| ==> position + n == |content|
  {
    if position < |content| then |content| - position else 0
  }

  /**
   * The file holding `content` after `bytes` are written at `position`: they replace what
   * was there, the file grows as far as needed, a gap before `position` reads as zeros and
   * writing nothing changes nothing.
   */
  function Overwrite(content: seq<byte>, position: nat, bytes: seq<byte>): (r: seq<byte>)
    ensures |bytes| == 0 ==> r == content
    ensures |bytes| > 0 ==> |r| == if position + |bytes| <= |content| then |content| else position + |bytes|
    ensures |bytes| > 0 ==> r[position..position + |bytes|] == bytes
    ensures |bytes| > 0 ==> forall i :: 0 <= i < |content| && (i < position || position + |bytes| <= i) ==> r[i] == content[i]
  {
    if |bytes| == 0 then content
    else
      var head := if position <= |content| then content[..position] else content + seq(position - |content|, _ => 0 as byte);
      var tail := if position + |bytes| < |content| then content[position + |bytes|..] else [];
      assert |head| == position;
      var r := head + bytes + tail;
      assert r[position..position + |bytes|] == bytes;
      r
  }

  class ByteBuffer {
    const data: array<byte>
    var position: nat
    var limit: nat

    /** `ByteBuffer.allocate(capacity)`: a zeroed buffer whose whole capacity remains. */
    constructor Allocate(capacity: nat)
      ensures fresh(data) && data.Length == capacity
      ensures forall i :: 0 <= i < capacity ==> data[i] == 0
      ensures position == 0 && limit == capacity
    {
      data := new byte[capacity](_ => 0 as byte);
      position := 0;
      limit := capacity;
    }

    /** `ByteBuffer.wrap(backing)`: a buffer over `backing` itself, all of it remaining. */
    constructor Wrap(backing: array<byte>)
      ensures data == backing && position == 0 && limit == backing.Length
    {
      data := backing;
      position := 0;
      limit := backing.Length;
    }

    /** `put(src)`: copies `src` in at the position and moves past it. */
    method Put(src: seq<byte>)
      requires position + |src| <= limit <= data.Length
      modifies this, data
      ensures data[..] == old(data[..])[..old(position)] + src + old(data[..])[old(position) + |src|..]
      ensures position == old(position) + |src| && limit == old(limit)
    {
      forall i | 0 <= i < |src| {
        data[position + i] := src[i];
      }
      position := position + |src|;
    }

    /** `flip()`: what was put becomes what remains to be read. */
    method Flip()
      modifies this
      ensures limit == old(position) && position == 0
    {
      limit := position;
      position := 0;
    }

    /** `clear()`: the whole capacity remains. */
    method Clear()
      modifies this
      ensures position == 0 && limit == data.Length
    {
      position := 0;
      limit := data.Length;
    }
  }

  class FileChannel {
    var content: seq<byte>
    var position: nat

    /** `FileChannel.open(path, READ, WRITE, CREATE)` on a file holding `existing` (empty when it was absent). */
    constructor Open(existing: seq<byte>)
      ensures content == existing && position == 0
    {
      content := existing;
      position := 0;
    }

    /** `position(p)` */
    method SetPosition(p: nat)
      modifies this
      ensures position == p && content == old(content)
    {
      position := p;
    }

    /**
     * `read(dst)`: copies as many bytes as the file has from the position and `dst` has
     * room for, and returns how many; -1 when `dst` has room but the file has ended.
     */
    method Read(dst: ByteBuffer) returns (n: int)
      requires dst.position <= dst.limit <= dst.data.Length
      modifies this, dst, dst.data
      ensures content == old(content) && dst.limit == old(dst.limit)
      ensures var k := Min(old(dst.limit) - old(dst.position), Available(content, old(position)));
              && n == (if old(dst.position) < old(dst.limit) && k == 0 then -1 else k)
              && position == old(position) + k && dst.position == old(dst.position) + k
              && (k == 0 ==> dst.data[..] == old(dst.data[..]))
              && (k > 0 ==> dst.data[..] == old(dst.data[..])[..old(dst.position)] + content[old(position)..old(position) + k]
                                              + old(dst.data[..])[old(dst.position) + k..])
    {
      var k := Min(dst.limit - dst.position, Available(content, position));
      if dst.position < dst.limit && k == 0 {
        return -1;
      }
      forall i | 0 <= i < k {
        dst.data[dst.position + i] := content[position + i];
      }
      dst.position := dst.position + k;
      position := position + k;
      n := k;
    }

    /** `write(src)`: writes all of what remains in `src` at the position and moves past it. */
    method Write(src: ByteBuffer) returns (n: int)
      requires src.position <= src.limit <= src.data.Length
      modifies this, src
      ensures var bytes := old(src.data[src.position..src.limit]);
              && content == Overwrite(old(content), old(position), bytes)
              && position == old(position) + |bytes| && n == |bytes|
      ensures src.position == src.limit && src.limit == old(src.limit)
    {
      var bytes := src.data[src.position..src.limit];
      content := Overwrite(content, position, bytes);
      position := position + |bytes|;
      src.position := src.limit;
      n := |bytes|;
    }
  }
}
