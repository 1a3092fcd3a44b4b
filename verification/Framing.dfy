/**
 The byte stream and datagram formats: the TCP reader of
 source/Network/TCP_Connection.cpp and the UDP reader of
 source/Network/udp_connection.cpp with source/Network/AsyncServer.cpp.
 */
module Framing {
  import opened Bytes
  import opened BufferUtils

  // ---------------------------------------------------------------- TCP

  /** closed: a zero length was read, the session is queued for removal and reading stops. */
  datatype ReadResult = ReadResult(messages: seq<seq<byte>>, rest: seq<byte>, closed: bool)

  /** What the reader has delivered once it has seen exactly the bytes of stream. */
  function Deframe(stream: seq<byte>): ReadResult {
    if |stream| < 2 then
      ReadResult([], stream, false)
    else
      var size: int := U16At(stream, 0);
      if size == 0 then
        ReadResult([], stream[2..], true)
      else if |stream| < 2 + size then
        ReadResult([], stream, false)
      else
        var r := Deframe(stream[2 + size..]);
        r.(messages := [stream[2..2 + size]] + r.messages)
  }

  /** Start_Read and handle_read as one loop: two length bytes, then that many bytes, then again. */
  method ReadLoop(stream: seq<byte>) returns (messages: seq<seq<byte>>, rest: seq<byte>, closed: bool)
    ensures ReadResult(messages, rest, closed) == Deframe(stream)
  {
    messages, rest, closed := [], stream, false;
    while |rest| >= 2
      invariant closed ==> ReadResult(messages, rest, true) == Deframe(stream)
      invariant !closed ==>
          Deframe(stream) == Deframe(rest).(messages := messages + Deframe(rest).messages)
      decreases |rest|
    {
      var size: int := U16At(rest, 0);
      if size == 0 {
        rest, closed := rest[2..], true;
        break;
      }
      if |rest| < 2 + size {
        break;
      }
      ghost var before := messages;
      messages := messages + [rest[2..2 + size]];
      assert before + ([rest[2..2 + size]] + Deframe(rest[2 + size..]).messages)
          == messages + Deframe(rest[2 + size..]).messages;
      rest := rest[2 + size..];
    }
  }

  /** What the reader has delivered when b arrives after it had got as far as first. */
  function Resume(first: ReadResult, b: seq<byte>): ReadResult {
    if first.closed then
      ReadResult(first.messages, first.rest + b, true)
    else
      var second := Deframe(first.rest + b);
      ReadResult(first.messages + second.messages, second.rest, second.closed)
  }

  lemma DeframeFirst(m: seq<byte>, header: seq<byte>, tail: seq<byte>)
    requires |header| == 2 && 1 <= |m| == U16At(header, 0)
    ensures var r := Deframe(tail);
            Deframe(header + m + tail) == ReadResult([m] + r.messages, r.rest, r.closed)
  {
    var stream := header + m + tail;
    assert U16At(stream, 0) == |m|;
    assert stream[2..2 + |m|] == m && stream[2 + |m|..] == tail;
  }

  /** Bytes arriving in two pieces: the reader resumes with what it had left over. */
  lemma {:induction false} DeframeResumes(a: seq<byte>, b: seq<byte>)
    ensures Deframe(a + b) == Resume(Deframe(a), b)
    decreases |a|
  {
    if |a| < 2 {
      var second := Deframe(a + b);
      assert [] + second.messages == second.messages;
    } else {
      var size: int := U16At(a, 0);
      assert U16At(a + b, 0) == size;
      if size == 0 {
        assert (a + b)[2..] == a[2..] + b;
      } else if |a| < 2 + size {
        var second := Deframe(a + b);
        assert [] + second.messages == second.messages;
      } else {
        var header, m, tail := a[..2], a[2..2 + size], a[2 + size..];
        assert a == header + m + tail && a + b == header + m + (tail + b);
        DeframeFirst(m, header, tail);
        DeframeFirst(m, header, tail + b);
        DeframeResumes(tail, b);
        ResumeCons(m, Deframe(tail), b);
      }
    }
  }

  lemma ResumeCons(m: seq<byte>, first: ReadResult, b: seq<byte>)
    ensures var r := Resume(first, b);
            Resume(ReadResult([m] + first.messages, first.rest, first.closed), b) ==
            ReadResult([m] + r.messages, r.rest, r.closed)
  {
    if !first.closed {
      var second := Deframe(first.rest + b);
      assert [m] + (first.messages + second.messages) == [m] + first.messages + second.messages;
    }
  }

  /** Any prefix of a stream delivers a prefix of what the whole stream delivers. */
  lemma PrefixDeliversPrefix(a: seq<byte>, b: seq<byte>)
    ensures Deframe(a).messages <= Deframe(a + b).messages
  {
    DeframeResumes(a, b);
  }

  function Frames(messages: seq<seq<byte>>): seq<byte> {
    Flatten(Map(AddLength, messages))
  }

  /** Bytes with which the reader waits for more. */
  predicate Incomplete(rest: seq<byte>) {
    |rest| < 2 ||
    var size := rest[0] as int + 0x100 * (rest[1] as int);
    size > 0 && |rest| < 2 + size
  }

  /** What follows the frames: the zero length that closes the session, and what is left. */
  function Ending(r: ReadResult): seq<byte> {
    (if r.closed then [0, 0] else []) + r.rest
  }

  /** stream is the frames of the messages and the ending, and the reader can deliver nothing more. */
  ghost predicate Splits(stream: seq<byte>, r: ReadResult) {
    && Framable(r.messages)
    && stream == Frames(r.messages) + Ending(r)
    && (!r.closed ==> Incomplete(r.rest))
  }

  ghost predicate Framable(messages: seq<seq<byte>>) {
    forall i :: 0 <= i < |messages| ==> 1 <= |messages[i]| <= 0xFFFF
  }

  lemma FramesCons(messages: seq<seq<byte>>)
    requires messages != []
    ensures Frames(messages) == AddLength(messages[0]) + Frames(messages[1..])
  {
    assert Map(AddLength, messages)[1..] == Map(AddLength, messages[1..]);
  }

  lemma {:induction false} FramesDeframe(messages: seq<seq<byte>>)
    requires Framable(messages)
    ensures Deframe(Frames(messages)) == ReadResult(messages, [], false)
  {
    if messages != [] {
      var m, others := messages[0], messages[1..];
      FramesDeframe(others);
      FramesCons(messages);
      FrameDeframe(m, Frames(others));
      assert messages == [m] + others;
    }
  }

  lemma FrameDeframe(m: seq<byte>, tail: seq<byte>)
    requires 1 <= |m| <= 0xFFFF
    ensures var r := Deframe(tail);
            Deframe(AddLength(m) + tail) == ReadResult([m] + r.messages, r.rest, r.closed)
  {
    var header := U16Bytes(ToU16(|m|));
    assert U16At(header, 0) == |m|;
    assert AddLength(m) + tail == header + m + tail;
    DeframeFirst(m, header, tail);
  }

  lemma SplitsCons(m: seq<byte>, tail: seq<byte>, r: ReadResult)
    requires 1 <= |m| <= 0xFFFF
    ensures Splits(AddLength(m) + tail, r.(messages := [m] + r.messages)) <==> Splits(tail, r)
  {
    var more := r.(messages := [m] + r.messages);
    assert Ending(more) == Ending(r) && more.messages[1..] == r.messages;
    FramesCons(more.messages);
    assert Framable(more.messages) <==> Framable(r.messages) by {
      assert forall i :: 0 <= i < |r.messages| ==> more.messages[i + 1] == r.messages[i];
    }
    hide Framable, Ending, Frames;
    var frame := AddLength(m);
    ConcatAssociates(frame, Frames(r.messages), Ending(r));
    if frame + tail == frame + (Frames(r.messages) + Ending(r)) {
      assert tail == (frame + tail)[|frame|..];
      assert (frame + (Frames(r.messages) + Ending(r)))[|frame|..] == Frames(r.messages) + Ending(r);
    }
  }

  lemma ZeroHeader(stream: seq<byte>)
    requires |stream| >= 2 && U16At(stream, 0) == 0
    ensures stream == [0, 0] + stream[2..]
  {
    assert stream[0] == 0 && stream[1] == 0;
  }

  /** A frame that is all there is put together again from its message. */
  lemma FrameOf(stream: seq<byte>, size: nat)
    requires |stream| >= 2 + size && U16At(stream, 0) == size
    ensures AddLength(stream[2..2 + size]) + stream[2 + size..] == stream
  {
    var header := U16Bytes(ToU16(size));
    assert header[0] == stream[0] && header[1] == stream[1];
    hide U16Bytes, ToU16, U16At;
    assert header == stream[..2];
  }

  lemma DeframeEnds(stream: seq<byte>)
    requires |stream| < 2 || U16At(stream, 0) == 0 || |stream| < 2 + U16At(stream, 0)
    ensures Splits(stream, Deframe(stream)) && Deframe(stream).messages == []
  {
    var r := Deframe(stream);
    assert Frames([]) == [] && Frames([]) + Ending(r) == Ending(r);
    if |stream| >= 2 && U16At(stream, 0) == 0 {
      ZeroHeader(stream);
      hide U16At, Frames;
      assert r == ReadResult([], stream[2..], true);
    } else {
      assert r == ReadResult([], stream, false) && [] + stream == stream;
    }
  }

  lemma {:induction false} DeframeSplits(stream: seq<byte>)
    ensures Splits(stream, Deframe(stream))
    decreases |stream|
  {
    if |stream| < 2 || U16At(stream, 0) == 0 || |stream| < 2 + U16At(stream, 0) as int {
      DeframeEnds(stream);
    } else {
      var size: int := U16At(stream, 0);
      var m, tail := stream[2..2 + size], stream[2 + size..];
      FrameOf(stream, size);
      assert |m| == size;
      hide Deframe, U16At, AddLength, Splits;
      DeframeSplits(tail);
      FrameDeframe(m, tail);
      SplitsCons(m, tail, Deframe(tail));
    }
  }

  lemma SplitEnds(r: ReadResult)
    requires r.messages == [] && (!r.closed ==> Incomplete(r.rest))
    ensures Deframe(Ending(r)) == r
  {
    var end := Ending(r);
    if r.closed {
      assert end[2..] == r.rest && U16At(end, 0) == 0;
    } else {
      assert end == r.rest;
    }
  }

  lemma {:induction false} SplitIsUnique(stream: seq<byte>, r: ReadResult)
    requires Splits(stream, r)
    ensures Deframe(stream) == r
    decreases |r.messages|
  {
    if r.messages == [] {
      SplitEnds(r);
      assert Frames([]) + Ending(r) == Ending(r);
    } else {
      var m, others := r.messages[0], r.(messages := r.messages[1..]);
      var tail := Frames(others.messages) + Ending(r);
      assert r.messages == [m] + others.messages && 1 <= |m| <= 0xFFFF;
      FramesCons(r.messages);
      ConcatAssociates(AddLength(m), Frames(others.messages), Ending(r));
      assert stream == AddLength(m) + tail;
      SplitsCons(m, tail, others);
      hide Splits;
      SplitIsUnique(tail, others);
      FrameDeframe(m, tail);
    }
  }

  /**
   The reader takes any stream apart in the one possible way: frames of 1 to 65535 bytes, then
   either a zero length, after which nothing is read, or an incomplete frame.
   */
  lemma DeframeExactly(stream: seq<byte>, r: ReadResult)
    ensures Deframe(stream) == r <==> Splits(stream, r)
  {
    DeframeSplits(stream);
    if Splits(stream, r) {
      SplitIsUnique(stream, r);
    }
  }

  lemma {:induction false} UnframableIsNotRecovered(messages: seq<seq<byte>>)
    requires !Framable(messages)
    ensures Deframe(Frames(messages)).messages != messages
  {
    var m, tail := messages[0], Frames(messages[1..]);
    FramesCons(messages);
    var stream := AddLength(m) + tail;
    var size: int := U16At(stream, 0);
    assert size == ToU16(|m|);
    if 1 <= |m| <= 0xFFFF {
      FrameDeframe(m, tail);
      UnframableIsNotRecovered(messages[1..]);
    } else if size != 0 && |stream| >= 2 + size {
      assert |Deframe(stream).messages[0]| == size;
    }
  }

  /**
   The stream of framed messages is read back as exactly those messages if and only if every
   message has between 1 and 65535 bytes: an empty one closes the session, a longer one has
   its length truncated.
   */
  lemma StreamRoundTrip(messages: seq<seq<byte>>)
    ensures Deframe(Frames(messages)) == ReadResult(messages, [], false) <==> Framable(messages)
  {
    if Framable(messages) {
      FramesDeframe(messages);
    } else {
      UnframableIsNotRecovered(messages);
    }
  }

  /** A command byte and its payload, the unit SocketUser sends and ProcessReceiveBuffer takes apart. */
  datatype Command = Command(code: byte, payload: seq<byte>)

  function EncodeCommand(c: Command): seq<byte> {
    AddFirst(c.code, c.payload)
  }

  /** ProcessReceiveBuffer: an empty buffer is logged and dropped. */
  function DecodeCommand(message: seq<byte>): Option<Command> {
    if |message| > 0 then Some(Command(message[0], RemoveFront(REMOVE_CMD, message))) else None
  }

  lemma DecodeEncode(c: Command, message: seq<byte>)
    ensures DecodeCommand(message) == Some(c) <==> message == EncodeCommand(c)
  {
    if |message| > 0 {
      assert message == [message[0]] + message[1..];
    }
    assert EncodeCommand(c)[1..] == c.payload;
  }

  /**
   Commands survive encoding, framing, the byte stream and decoding, in order and with nothing
   left over, if and only if every payload has at most 65534 bytes.
   */
  lemma CommandStreamRoundTrip(commands: seq<Command>)
    ensures var r := Deframe(Frames(Map(EncodeCommand, commands)));
            (Map(DecodeCommand, r.messages) == Map(c => Some(c), commands) && r.rest == [] && !r.closed) <==>
            forall i :: 0 <= i < |commands| ==> |commands[i].payload| < 0xFFFF
  {
    var messages := Map(EncodeCommand, commands);
    var r := Deframe(Frames(messages));
    StreamRoundTrip(messages);
    if Map(DecodeCommand, r.messages) == Map(c => Some(c), commands) {
      assert |r.messages| == |commands|;
      forall i | 0 <= i < |commands| ensures r.messages[i] == messages[i] {
        assert Map(DecodeCommand, r.messages)[i] == Some(commands[i]);
        DecodeEncode(commands[i], r.messages[i]);
      }
      assert r.messages == messages;
    }
    if r.messages == messages {
      forall i | 0 <= i < |commands| ensures DecodeCommand(r.messages[i]) == Some(commands[i]) {
        DecodeEncode(commands[i], messages[i]);
      }
      assert Map(DecodeCommand, r.messages) == Map(c => Some(c), commands);
    }
    assert Framable(messages) <==> forall i :: 0 <= i < |commands| ==> |commands[i].payload| < 0xFFFF by {
      assert forall i :: 0 <= i < |commands| ==> |messages[i]| == 1 + |commands[i].payload|;
    }
  }

  // ---------------------------------------------------------------- UDP

  /** MAX_UDP_SIZE, the size of the receive buffer that every datagram of a connection lands in. */
  const MAX_UDP_SIZE: nat := 0xFFFF

  /** PastBuffer: the copy of `size` bytes would read past the end of the receive buffer. */
  datatype UdpOutcome<S> =
    | TooShort
    | UnknownId(id: uint16)
    | PastBuffer
    | Deliver(session: S, code: byte, buffer: seq<byte>)

  /** async_receive_from: the datagram overwrites the front of the buffer, older bytes stay behind it. */
  function Received(recvBuff: seq<byte>, datagram: seq<byte>): seq<byte>
    requires |datagram| <= |recvBuff|
  {
    datagram + recvBuff[|datagram|..]
  }

  /** handle_receive and the pointer form of Receive_UDP, down to the arguments of Process. */
  function ReceiveUdp<S>(recvBuff: seq<byte>, sessions: map<uint16, S>): UdpOutcome<S>
    requires |recvBuff| == MAX_UDP_SIZE
  {
    var size: int := U16At(recvBuff, 0);
    if size < 3 then
      TooShort
    else
      var id := U16At(recvBuff, 2);
      if id !in sessions then UnknownId(id)
      else if 5 + size > MAX_UDP_SIZE then PastBuffer
      else Deliver(sessions[id], recvBuff[4], recvBuff[5..5 + size])
  }

  /**
   What becomes of the bytes in the receive buffer, whatever they are: a session receives something
   if and only if the size, in bytes 0 and 1, is from 3 to 65530 and the id, in bytes 2 and 3, is
   registered; it is then the session of that id, with byte 4 as the code and the bytes behind it.
   */
  lemma UdpDispatch<S>(recvBuff: seq<byte>, sessions: map<uint16, S>)
    requires |recvBuff| == MAX_UDP_SIZE
    ensures var size := recvBuff[0] as int + 0x100 * (recvBuff[1] as int);
            var id: uint16 := recvBuff[2] as int + 0x100 * (recvBuff[3] as int);
            var r := ReceiveUdp(recvBuff, sessions);
            && (r.Deliver? <==> 3 <= size <= 65530 && id in sessions)
            && (r.Deliver? ==> r == Deliver(sessions[id], recvBuff[4], recvBuff[5..5 + size]))
            && (r.TooShort? <==> size < 3)
            && (r.UnknownId? <==> size >= 3 && id !in sessions)
            && (r.PastBuffer? <==> size > 65530 && id in sessions)
  {
  }

  function Datagram(id: uint16, c: Command): seq<byte> {
    AddLength(AddUdpId(id, EncodeCommand(c)))
  }

  /**
   A well-formed datagram that fits the buffer reaches the session registered under its id with
   its own command code if and only if its announced size is at most 65530; the buffer handed
   on is the payload followed by three bytes left over from earlier datagrams.
   */
  lemma UdpRoundTrip<S>(stale: seq<byte>, sessions: map<uint16, S>, id: uint16, c: Command)
    requires |stale| == MAX_UDP_SIZE && id in sessions
    requires |Datagram(id, c)| <= MAX_UDP_SIZE
    ensures var size := |c.payload| + 3;
            ReceiveUdp(Received(stale, Datagram(id, c)), sessions) ==
            if size <= MAX_UDP_SIZE - 5
            then Deliver(sessions[id], c.code, c.payload + stale[size + 2..size + 5])
            else PastBuffer
  {
    var size := |c.payload| + 3;
    var buff := Received(stale, Datagram(id, c));
    assert Datagram(id, c) == U16Bytes(size) + (U16Bytes(id) + ([c.code] + c.payload));
    assert buff[5..] == c.payload + stale[size + 2..];
    if size <= MAX_UDP_SIZE - 5 {
      assert buff[5..5 + size] == buff[5..][..size];
      assert buff[5..5 + size] == c.payload + stale[size + 2..size + 5];
    }
  }
}
