/** source/Network/BufferUtils.h: header bytes put in front of, and removed from, a message. */
module BufferUtils {
  import opened Bytes

  const REMOVE_CMD: nat := 1

  /** The length goes through a uint16_t, so a message of 65536 bytes or more is announced modulo 65536. */
  function AddLength(data: seq<byte>): seq<byte> {
    U16Bytes(ToU16(|data|)) + data
  }

  function AddUdpId(id: uint16, data: seq<byte>): seq<byte> {
    U16Bytes(id) + data
  }

  function AddFirst(b: byte, origin: seq<byte>): seq<byte> {
    [b] + origin
  }

  /** Removing more bytes than there are returns the buffer as it was. */
  function RemoveFront(n: nat, origin: seq<byte>): seq<byte> {
    if n > |origin| then origin else origin[n..]
  }

  /** RemoveFront takes off what was put in front, and exactly nothing when there is too little. */
  lemma RemoveFrontExactly(n: nat, a: seq<byte>, b: seq<byte>)
    ensures RemoveFront(|a|, a + b) == b
    ensures RemoveFront(n, b) == b <==> n == 0 || n > |b|
    ensures n <= |b| ==> b[..n] + RemoveFront(n, b) == b
  {
  }

  /** The two-buffer Add: one allocation and two copies. */
  method Add(buffer1: seq<byte>, buffer2: seq<byte>) returns (res: seq<byte>)
    ensures res == buffer1 + buffer2
  {
    var resBuf := new byte[|buffer1| + |buffer2|];
    MemCopy(resBuf, 0, buffer1);
    MemCopy(resBuf, |buffer1|, buffer2);
    res := resBuf[..];
  }

  /** The many-buffer Add: a loop of insertions at the end. */
  method AddAll(buffers: seq<seq<byte>>) returns (res: seq<byte>)
    ensures res == Flatten(buffers)
  {
    res := [];
    var i := 0;
    while i < |buffers|
      invariant 0 <= i <= |buffers|
      invariant res == Flatten(buffers[..i])
    {
      assert buffers[..i + 1] == buffers[..i] + [buffers[i]];
      FlattenAppend(buffers[..i], [buffers[i]]);
      res := res + buffers[i];
      i := i + 1;
    }
    assert buffers[..i] == buffers;
  }
}
