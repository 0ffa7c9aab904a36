/**
 * `writeStackHistory`: putting the new stack's block in front of the stack history file
 * in place. The file is read ahead a buffer at a time while the buffer read before it is
 * written back further down, so the block ends up first and the old history follows it.
 */
module StackHistoryWrite {
  import opened JavaStrings
  import opened JavaNio
  import opened MappingSources
  import opened StackHistory

  /** The smallest buffer the writer uses. */
  const MIN_CAPACITY: nat := 4096

  /** The block text, built with a `StringBuilder`: the version line, then a line per source. */
  method BuildAddition(version: string, files: seq<MappingFile>) returns (addition: string)
    ensures addition == BlockText(version, files)
  {
    addition := version + "\n";
    for i := 0 to |files|
      invariant addition + EntryLines(files[i..]) == BlockText(version, files)
    {
      assert files[i..][1..] == files[i + 1..];
      addition := addition + "\t" + files[i].name + "-" + files[i].version + " " + files[i].minecraftVersion + "\n";
    }
    assert files[|files|..] == [];
  }

  /** What is left of the original file from `p` on. */
  function Rest(history: seq<byte>, p: nat): seq<byte> {
    if p < |history| then history[p..] else []
  }

  /**
   * The file while the block `data` is being put in front of `history`: its first `p`
   * bytes are already those of the result, and the rest of the original is still in place.
   */
  predicate Shifted(content: seq<byte>, data: seq<byte>, history: seq<byte>, p: nat) {
    p <= |data| + |history| && content == (data + history)[..p] + Rest(history, p)
  }

  /** Reading ahead of the written part sees the original bytes. */
  lemma AvailableAhead(content: seq<byte>, data: seq<byte>, history: seq<byte>, p: nat, from: nat)
    requires Shifted(content, data, history, p)
    requires p <= from <= |history|
    ensures from <= |content| && Available(content, from) == |history| - from
  {
  }

  lemma ReadAhead(content: seq<byte>, data: seq<byte>, history: seq<byte>, p: nat, from: nat, k: nat)
    requires Shifted(content, data, history, p)
    requires p <= from && from + k <= |history|
    ensures content[from..from + k] == (data + history)[from + |data|..from + |data| + k]
  {
    assert content[from..from + k] == history[from..from + k];
  }

  /** Writing the next bytes of the result at the written part's end extends it. */
  lemma WriteAtEnd(content: seq<byte>, data: seq<byte>, history: seq<byte>, p: nat, k: nat)
    requires Shifted(content, data, history, p)
    requires p + k <= |data| + |history|
    ensures Shifted(Overwrite(content, p, (data + history)[p..p + k]), data, history, p + k)
  {
    var t := data + history;
    var r := Overwrite(content, p, t[p..p + k]);
    if k > 0 {
      var e := t[..p + k] + Rest(history, p + k);
      assert |r| == |e|;
      forall i | 0 <= i < |r|
        ensures r[i] == e[i]
      {
        if i < p {
          assert r[i] == content[i];
        } else if i < p + k {
          assert r[i] == r[p..p + k][i - p];
        } else {
          assert r[i] == content[i];
        }
      }
    }
  }

  /** The inner do-while: reads until `buffer` is full or the file ends. */
  method FillBuffer(channel: FileChannel, buffer: ByteBuffer)
    requires buffer.position == 0 && buffer.limit == buffer.data.Length
    requires channel.position <= |channel.content|
    modifies channel, buffer, buffer.data
    ensures channel.content == old(channel.content) && buffer.limit == old(buffer.limit)
    ensures var k := Min(buffer.data.Length, Available(channel.content, old(channel.position)));
            && buffer.position == k && channel.position == old(channel.position) + k
            && buffer.data[..k] == channel.content[old(channel.position)..old(channel.position) + k]
  {
    ghost var start := channel.position;
    var read := ReadMore(channel, buffer, start);
    while read != -1 && buffer.position < buffer.limit
      invariant channel.content == old(channel.content)
      invariant Filling(channel, buffer, start, read)
      decreases buffer.limit - buffer.position, if read == -1 then 0 else 1
    {
      read := ReadMore(channel, buffer, start);
    }
  }

  /**
   * What the inner do-while keeps: the buffer holds the file's bytes from `start` on, up to
   * the channel's position, and a read of -1 means the file has no more.
   */
  ghost predicate Filling(channel: FileChannel, buffer: ByteBuffer, start: nat, read: int)
    reads channel, buffer, buffer.data
  {
    && buffer.position <= buffer.limit == buffer.data.Length
    && channel.position == start + buffer.position <= |channel.content|
    && buffer.data[..buffer.position] == channel.content[start..channel.position]
    && (read == -1 ==> Available(channel.content, channel.position) == 0)
  }

  /** One `channel.read(buffer)` of the do-while: the bytes read extend what the buffer holds. */
  method ReadMore(channel: FileChannel, buffer: ByteBuffer, ghost start: nat) returns (read: int)
    requires buffer.position <= buffer.limit == buffer.data.Length
    requires channel.position == start + buffer.position <= |channel.content|
    requires buffer.data[..buffer.position] == channel.content[start..channel.position]
    modifies channel, buffer, buffer.data
    ensures channel.content == old(channel.content) && Filling(channel, buffer, start, read)
    ensures buffer.position >= old(buffer.position)
    ensures read != -1 && old(buffer.position) < buffer.limit ==> buffer.position > old(buffer.position)
  {
    ghost var done := buffer.position;
    ghost var before := buffer.data[..];
    assert before[..done] == channel.content[start..start + done];
    read := channel.Read(buffer);
    ghost var k := buffer.position - done;
    assert buffer.data[..buffer.position] == buffer.data[..][..done + k];
  }

  /** `while (buffer.hasRemaining()) channel.write(buffer);` */
  method Drain(channel: FileChannel, buffer: ByteBuffer)
    requires buffer.position <= buffer.limit <= buffer.data.Length
    modifies channel, buffer
    ensures var bytes := old(buffer.data[buffer.position..buffer.limit]);
            && channel.content == Overwrite(old(channel.content), old(channel.position), bytes)
            && channel.position == old(channel.position) + |bytes|
    ensures buffer.position == buffer.limit && buffer.limit == old(buffer.limit)
  {
    if buffer.position == buffer.limit {
      assert old(buffer.data[buffer.position..buffer.limit]) == [];
    }
    while buffer.position < buffer.limit
      invariant buffer.position <= buffer.limit == old(buffer.limit)
      invariant buffer.position == old(buffer.position) ==> channel.content == old(channel.content) && channel.position == old(channel.position)
      invariant buffer.position != old(buffer.position) ==>
                  && buffer.position == buffer.limit
                  && channel.content == Overwrite(old(channel.content), old(channel.position), old(buffer.data[buffer.position..buffer.limit]))
                  && channel.position == old(channel.position) + (old(buffer.limit) - old(buffer.position))
      decreases buffer.limit - buffer.position
    {
      var _ := channel.Write(buffer);
    }
  }

  /** `buffer` is flipped and what remains in it is `bytes`. */
  predicate Holds(buffer: ByteBuffer, bytes: seq<byte>)
    reads buffer, buffer.data
  {
    buffer.position == 0 && buffer.limit == |bytes| <= buffer.data.Length && buffer.data[..buffer.limit] == bytes
  }

  /**
   * Between rounds of the exchange: `active` holds the next bytes of the result, those
   * that go at the channel's position, and the next read starts right after what the
   * original file had under them.
   */
  predicate Exchanging(channel: FileChannel, active: ByteBuffer, passive: ByteBuffer, data: seq<byte>, history: seq<byte>)
    reads channel, active, passive, active.data
  {
    var p := channel.position;
    var capacity := active.data.Length;
    && active != passive && active.data != passive.data
    && passive.data.Length == capacity >= |data| > 0
    && Shifted(channel.content, data, history, p)
    && p + active.limit - |data| <= |history|
    && Holds(active, (data + history)[p..p + active.limit])
    && (p == 0 ==> active.limit == |data|)
    && (p > 0 ==> active.limit == capacity)
  }

  /**
   * The reading half of a round: move past what the original still has under the
   * unwritten part of `active` (when there is any), fill `passive` from there and flip it,
   * and go back to where the write goes.
   */
  method ReadNext(channel: FileChannel, passive: ByteBuffer, offset: int, ghost ahead: int, ghost data: seq<byte>, ghost history: seq<byte>)
    requires Shifted(channel.content, data, history, channel.position)
    requires ahead - |data| == if channel.position > 0 && offset > 0 then channel.position + offset else channel.position
    requires channel.position <= ahead - |data| <= |history|
    modifies channel, passive, passive.data
    ensures channel.content == old(channel.content) && channel.position == old(channel.position)
    ensures ahead - |data| + passive.limit <= |history|
    ensures passive.limit < passive.data.Length ==> ahead - |data| + passive.limit == |history|
    ensures Holds(passive, (data + history)[ahead..ahead + passive.limit])
  {
    var position := channel.position;
    if position > 0 && offset > 0 {
      channel.SetPosition(position + offset);
    }
    ghost var from := channel.position;
    AvailableAhead(channel.content, data, history, position, from);
    passive.Clear();
    FillBuffer(channel, passive);
    ghost var k := passive.position;
    ReadAhead(channel.content, data, history, position, from, k);
    passive.Flip();
    channel.SetPosition(position);
  }

  /**
   * The writing half of a round: the bytes in `active`, the next ones of the result, are
   * written at the end of the written part.
   */
  method WriteActive(channel: FileChannel, active: ByteBuffer, ghost data: seq<byte>, ghost history: seq<byte>)
    requires Shifted(channel.content, data, history, channel.position)
    requires channel.position + active.limit <= |data| + |history|
    requires Holds(active, (data + history)[channel.position..channel.position + active.limit])
    modifies channel, active
    ensures channel.position == old(channel.position) + old(active.limit)
    ensures Shifted(channel.content, data, history, channel.position)
  {
    WriteAtEnd(channel.content, data, history, channel.position, active.limit);
    assert active.data[active.position..active.limit] == active.data[..active.limit];
    Drain(channel, active);
  }

  /** Once the written part covers the whole result, the file is the result. */
  lemma ShiftedAll(content: seq<byte>, data: seq<byte>, history: seq<byte>)
    requires Shifted(content, data, history, |data| + |history|)
    ensures content == data + history
  {
    assert (data + history)[..|data| + |history|] == data + history;
  }

  /**
   * One round of the outer do-while: read the next buffer of the original, then write the
   * active buffer back at the position it was read from.
   */
  method Exchange(channel: FileChannel, active: ByteBuffer, passive: ByteBuffer, offset: int, ghost data: seq<byte>, ghost history: seq<byte>)
    requires Exchanging(channel, active, passive, data, history)
    requires offset == active.data.Length - |data|
    modifies channel, active, passive, passive.data
    ensures channel.position == old(channel.position) + old(active.limit) > 0
    ensures Shifted(channel.content, data, history, channel.position)
    ensures channel.position + passive.limit - |data| <= |history|
    ensures passive.limit < passive.data.Length ==> channel.position + passive.limit == |data| + |history|
    ensures Holds(passive, (data + history)[channel.position..channel.position + passive.limit])
  {
    ReadNext(channel, passive, offset, channel.position + active.limit, data, history);
    WriteActive(channel, active, data, history);
  }

  /** The buffer the block starts in: the block's own bytes when they fill the smallest buffer, else a buffer of that size. */
  method Prepare(data: seq<byte>) returns (active: ByteBuffer)
    ensures fresh(active) && fresh(active.data)
    ensures active.data.Length == if |data| >= MIN_CAPACITY then |data| else MIN_CAPACITY
    ensures Holds(active, data)
  {
    if |data| >= MIN_CAPACITY {
      var backing := new byte[|data|](i requires 0 <= i < |data| => data[i]);
      active := new ByteBuffer.Wrap(backing);
      assert active.data[..active.limit] == data;
    } else {
      active := new ByteBuffer.Allocate(MIN_CAPACITY);
      active.Put(data);
      assert active.data[..|data|] == data;
      active.Flip();
    }
  }

  /**
   * The outer do-while: rounds of the exchange until a read comes back short. Returns the
   * buffer holding the last bytes of the result, still to be written.
   */
  method ExchangeAll(channel: FileChannel, active: ByteBuffer, passive: ByteBuffer, ghost data: seq<byte>, ghost history: seq<byte>)
      returns (last: ByteBuffer)
    requires channel.position == 0 && Exchanging(channel, active, passive, data, history)
    modifies channel, active, passive, active.data, passive.data
    ensures last == active || last == passive
    ensures Shifted(channel.content, data, history, channel.position)
    ensures channel.position + last.limit == |data| + |history|
    ensures Holds(last, (data + history)[channel.position..channel.position + last.limit])
  {
    var offset := passive.data.Length - active.limit;
    var current, other := active, passive;
    while true
      invariant (current == active && other == passive) || (current == passive && other == active)
      invariant current.data.Length == active.data.Length && offset == current.data.Length - |data|
      invariant Exchanging(channel, current, other, data, history)
      decreases |data| + |history| - channel.position
    {
      Exchange(channel, current, other, offset, data, history);
      current, other := other, current;
      if current.limit < current.data.Length {
        break;
      }
    }
    last := current;
  }

  /**
   * `writeStackHistory(version)` on a history file holding `history` (empty when there was
   * none): the file ends up holding the UTF-8 bytes of the new block followed by the old
   * history.
   */
  method WriteStackHistory(version: string, files: seq<MappingFile>, history: seq<byte>) returns (written: seq<byte>)
    ensures written == GetBytesUtf8(BlockText(version, files)) + history
  {
    var addition := BuildAddition(version, files);
    var data := GetBytesUtf8(addition);
    var active := Prepare(data);
    var passive := new ByteBuffer.Allocate(active.data.Length);
    var channel := new FileChannel.Open(history);
    if passive.data.Length != active.data.Length {
      assert false;
    }
    assert |data| > 0 by { assert |addition| > 0; }
    assert Shifted(channel.content, data, history, 0) by {
      assert (data + history)[..0] + Rest(history, 0) == history;
    }
    assert (data + history)[0..active.limit] == data;
    var last := ExchangeAll(channel, active, passive, data, history);
    ghost var end := channel.position + last.limit;
    WriteActive(channel, last, data, history);
    assert channel.position == end;
    ShiftedAll(channel.content, data, history);
    written := channel.content;
  }
}
