/**
 A match and its players as values (source/Match.cpp, source/Player.h): the two broadcast
 packets, the effect of every operation, and what holds over whole runs. Floats are opaque
 four-byte words.
 */
module MatchModel {
  import opened Bytes
  import opened BufferUtils
  import opened Subsequences

  type Word = w: seq<byte> | |w| == 4 witness [0, 0, 0, 0]

  datatype Vec3 = Vec3(x: Word, y: Word, z: Word)
  datatype Quat = Quat(w: Word, x: Word, y: Word, z: Word)

  const ORIENTATION_SIZE: nat := 28
  const ENTRY_SIZE: nat := ORIENTATION_SIZE + 1

  const EVENT_NONE: byte := 0
  const EVENT_JUMP: byte := 1

  const DEBUG_START: byte := 1
  const UPDATE_ORIENTATION: byte := 2
  const PLAYER_EVENT: byte := 3

  datatype PlayerEvent = PlayerEvent(command: byte, data: seq<byte>)

  datatype PlayerState = PlayerState(
    userId: uint32, instanceId: byte, authenticated: bool,
    location: Vec3, rotation: Quat, events: seq<PlayerEvent>)

  // ---------------------------------------------------------------- orientations

  /** The seven floats in the order in which the packet carries them. */
  function SerializeOrientation(location: Vec3, rotation: Quat): seq<byte> {
    location.x + location.y + location.z + rotation.x + rotation.y + rotation.z + rotation.w
  }

  function Orientation(p: PlayerState): (r: seq<byte>)
    ensures |r| == ORIENTATION_SIZE
  {
    SerializeOrientation(p.location, p.rotation)
  }

  function ReadLocation(raw: seq<byte>): Vec3
    requires |raw| >= ORIENTATION_SIZE
  {
    Vec3(raw[0..4], raw[4..8], raw[8..12])
  }

  /** The quaternion's constructor takes w first although w comes last in the buffer. */
  function ReadRotation(raw: seq<byte>): Quat
    requires |raw| >= ORIENTATION_SIZE
  {
    Quat(raw[24..28], raw[12..16], raw[16..20], raw[20..24])
  }

  /** What an update puts into a player, and where, and that it comes out bit for bit. */
  lemma OrientationBitExact(raw: seq<byte>)
    requires |raw| >= ORIENTATION_SIZE
    ensures ReadLocation(raw) == Vec3(raw[0..4], raw[4..8], raw[8..12])
    ensures var q := ReadRotation(raw);
            q.x == raw[12..16] && q.y == raw[16..20] && q.z == raw[20..24] && q.w == raw[24..28]
    ensures SerializeOrientation(ReadLocation(raw), ReadRotation(raw)) == raw[..ORIENTATION_SIZE]
  {
    assert raw[0..4] + raw[4..8] == raw[..8];
    assert raw[..8] + raw[8..12] == raw[..12];
    assert raw[..12] + raw[12..16] == raw[..16];
    assert raw[..16] + raw[16..20] == raw[..20];
    assert raw[..20] + raw[20..24] == raw[..24];
    assert raw[..24] + raw[24..28] == raw[..28];
  }

  // ---------------------------------------------------------------- std::map order

  lemma {:induction false} FindLeast(s: set<uint32>) returns (m: uint32)
    requires s != {}
    ensures m in s && forall x :: x in s ==> m <= x
  {
    m :| m in s;
    var rest := s - {m};
    assert forall x :: x in s ==> x == m || x in rest;
    if rest != {} {
      var least := FindLeast(rest);
      m := if m < least then m else least;
    }
  }

  lemma LeastExists(s: set<uint32>)
    requires s != {}
    ensures exists m :: m in s && forall x :: x in s ==> m <= x
  {
    var m := FindLeast(s);
  }

  function Least(s: set<uint32>): (m: uint32)
    requires s != {}
    ensures m in s && forall x :: x in s ==> m <= x
  {
    LeastExists(s);
    var m :| m in s && forall x :: x in s ==> m <= x;
    m
  }

  /** The order in which a std::map with these keys is iterated. */
  function KeyOrder(s: set<uint32>): seq<uint32> {
    if s == {} then [] else [Least(s)] + KeyOrder(s - {Least(s)})
  }

  lemma {:induction false} KeyOrderHasKeys(s: set<uint32>)
    ensures |KeyOrder(s)| == |s|
    ensures forall k :: k in KeyOrder(s) <==> k in s
  {
    if s != {} {
      var m := Least(s);
      KeyOrderHasKeys(s - {m});
      assert forall k :: k in s <==> k == m || k in s - {m};
    }
  }

  lemma {:induction false} KeyOrderIsSorted(s: set<uint32>)
    ensures forall i, j :: 0 <= i < j < |KeyOrder(s)| ==> KeyOrder(s)[i] < KeyOrder(s)[j]
  {
    if s != {} {
      var m := Least(s);
      var rest := KeyOrder(s - {m});
      KeyOrderHasKeys(s - {m});
      KeyOrderIsSorted(s - {m});
      assert KeyOrder(s) == [m] + rest;
      forall j | 0 <= j < |rest| ensures m < rest[j] {
        assert rest[j] in rest;
      }
    }
  }

  type Roster = m: map<uint32, PlayerState> | forall k :: k in m ==> m[k].userId == k

  // ---------------------------------------------------------------- the orientation packet

  datatype OrientationEntry = OrientationEntry(instanceId: byte, orientation: seq<byte>)

  function EntryOf(p: PlayerState): OrientationEntry {
    OrientationEntry(p.instanceId, Orientation(p))
  }

  /** The values of the map in iteration order. */
  function InOrder(players: Roster, keys: seq<uint32>): (r: seq<PlayerState>)
    requires forall k :: k in keys ==> k in players
    ensures |r| == |keys| && forall i :: 0 <= i < |keys| ==> r[i] == players[keys[i]]
  {
    seq(|keys|, i requires 0 <= i < |keys| && keys[i] in players => players[keys[i]])
  }

  function EntryBytes(e: OrientationEntry): seq<byte> {
    [e.instanceId] + e.orientation
  }

  function EncodeEntries(es: seq<OrientationEntry>): seq<byte> {
    if es == [] then [] else EntryBytes(es[0]) + EncodeEntries(es[1..])
  }

  /** Entry i starts at byte 29 i with the instance id. */
  lemma {:induction false} EntryAt(es: seq<OrientationEntry>, i: nat)
    requires i < |es| && forall j :: 0 <= j < |es| ==> |es[j].orientation| == ORIENTATION_SIZE
    ensures 29 * i + 29 <= |EncodeEntries(es)|
    ensures EncodeEntries(es)[29 * i] == es[i].instanceId
    ensures EncodeEntries(es)[29 * i + 1..29 * i + 29] == es[i].orientation
  {
    var first, rest := EntryBytes(es[0]), EncodeEntries(es[1..]);
    assert EncodeEntries(es) == first + rest && |first| == 29;
    if i > 0 {
      EntryAt(es[1..], i - 1);
      var at := 29 * (i - 1);
      hide EncodeEntries, EntryBytes;
      assert (first + rest)[29 + at] == rest[at];
      assert (first + rest)[29 + at + 1..29 + at + 29] == rest[at + 1..at + 29];
    } else {
      assert first[1..29] == es[0].orientation && (first + rest)[1..29] == first[1..29];
    }
  }

  /** A client's view of the packet: a count, then that many fixed-size entries; the rest is ignored. */
  function DecodeEntries(n: nat, bytes: seq<byte>): Option<seq<OrientationEntry>> {
    if n == 0 then Some([])
    else if |bytes| < ENTRY_SIZE then None
    else match DecodeEntries(n - 1, bytes[ENTRY_SIZE..])
         case None => None
         case Some(es) => Some([OrientationEntry(bytes[0], bytes[1..ENTRY_SIZE])] + es)
  }

  function DecodeOrientations(packet: seq<byte>): Option<seq<OrientationEntry>> {
    if packet == [] then None else DecodeEntries(packet[0], packet[1..])
  }

  lemma DecodeFirst(n: nat, e: OrientationEntry, tail: seq<byte>)
    requires |e.orientation| == ORIENTATION_SIZE
    ensures DecodeEntries(n + 1, EntryBytes(e) + tail) ==
            match DecodeEntries(n, tail) case None => None case Some(es) => Some([e] + es)
  {
    var bytes := EntryBytes(e) + tail;
    assert bytes[ENTRY_SIZE..] == tail && bytes[1..ENTRY_SIZE] == e.orientation;
  }

  lemma {:induction false} EntriesDecode(es: seq<OrientationEntry>, tail: seq<byte>)
    requires forall i :: 0 <= i < |es| ==> |es[i].orientation| == ORIENTATION_SIZE
    ensures DecodeEntries(|es|, EncodeEntries(es) + tail) == Some(es)
    ensures |EncodeEntries(es)| == 29 * |es|
  {
    if es != [] {
      EntriesDecode(es[1..], tail);
      DecodeFirst(|es| - 1, es[0], EncodeEntries(es[1..]) + tail);
      assert EncodeEntries(es) + tail == EntryBytes(es[0]) + (EncodeEntries(es[1..]) + tail);
      assert es == [es[0]] + es[1..];
    }
  }

  lemma CountedDecodes(n: byte, bytes: seq<byte>)
    ensures DecodeOrientations([n] + bytes) == DecodeEntries(n, bytes)
  {
    assert ([n] + bytes)[1..] == bytes;
  }

  lemma PacketDecodes(n: byte, es: seq<OrientationEntry>, tail: seq<byte>)
    requires |es| == n
    requires forall i :: 0 <= i < |es| ==> |es[i].orientation| == ORIENTATION_SIZE
    ensures DecodeOrientations([n] + (EncodeEntries(es) + tail)) == Some(es)
  {
    EntriesDecode(es, tail);
    CountedDecodes(n, EncodeEntries(es) + tail);
  }

  lemma {:induction false} EntriesAppend(a: seq<OrientationEntry>, b: seq<OrientationEntry>)
    ensures EncodeEntries(a + b) == EncodeEntries(a) + EncodeEntries(b)
  {
    if a == [] {
      assert a + b == b;
    } else {
      assert (a + b)[1..] == a[1..] + b;
      EntriesAppend(a[1..], b);
    }
  }

  // ---------------------------------------------------------------- the event packet

  /** An event of one player as SendPlayerEvents picks it up. */
  datatype Outgoing = Outgoing(userId: uint32, instanceId: byte, event: PlayerEvent)

  datatype WireEvent = WireEvent(instanceId: byte, command: byte, data: seq<byte>)

  function ToWire(o: Outgoing): WireEvent {
    WireEvent(o.instanceId, o.event.command, o.event.data)
  }

  /** SerializePlayerEvents skips None events. */
  function Pending(userId: uint32, instanceId: byte, events: seq<PlayerEvent>): seq<Outgoing> {
    if events == [] then []
    else (if events[0].command == EVENT_NONE then [] else [Outgoing(userId, instanceId, events[0])])
         + Pending(userId, instanceId, events[1..])
  }

  function EventOf(o: Outgoing): PlayerEvent {
    o.event
  }

  /**
   Every event that is not None is picked up, as often as it is queued and under its player's ids;
   none that is None is.
   */
  lemma {:induction false} PendingExactly(userId: uint32, instanceId: byte, events: seq<PlayerEvent>)
    ensures Subseq(Map(EventOf, Pending(userId, instanceId, events)), events)
    ensures forall e :: multiset(Map(EventOf, Pending(userId, instanceId, events)))[e] ==
                        if e.command == 0 then 0 else multiset(events)[e]
    ensures forall o :: o in Pending(userId, instanceId, events) ==> o.userId == userId && o.instanceId == instanceId
  {
    if events != [] {
      var e, rest, taken := events[0], events[1..], Pending(userId, instanceId, events[1..]);
      PendingExactly(userId, instanceId, rest);
      assert events == [e] + rest;
      if e.command == EVENT_NONE {
        assert Pending(userId, instanceId, events) == [] + taken == taken;
        hide Pending, Map;
        SubseqTail(rest, [e]);
        SubseqTrans(Map(EventOf, taken), rest, events);
      } else {
        var first := [Outgoing(userId, instanceId, e)];
        assert Pending(userId, instanceId, events) == first + taken;
        assert Map(EventOf, first) == [e];
        MapAppend(EventOf, first, taken);
        hide Pending, Map;
        SubseqCons([e], Map(EventOf, taken), rest);
      }
    }
  }

  function AllPending(players: seq<PlayerState>): seq<Outgoing> {
    if players == [] then []
    else Pending(players[0].userId, players[0].instanceId, players[0].events) + AllPending(players[1..])
  }

  /** The length byte is the data size modulo 256. */
  function WireBytes(w: WireEvent): seq<byte> {
    [w.instanceId, w.command, ToU8(|w.data|)] + w.data
  }

  function EncodeEvents(ws: seq<WireEvent>): seq<byte> {
    if ws == [] then [] else WireBytes(ws[0]) + EncodeEvents(ws[1..])
  }

  function EventPacket(ws: seq<WireEvent>): seq<byte> {
    AddFirst(ToU8(|ws|), EncodeEvents(ws))
  }

  /** A client's parser: n events, and nothing after them. */
  function ParseEvents(n: nat, bytes: seq<byte>): Option<seq<WireEvent>> {
    if n == 0 then
      if bytes == [] then Some([]) else None
    else if |bytes| < 3 || |bytes| < 3 + bytes[2] as int then None
    else
      var end := 3 + bytes[2] as int;
      match ParseEvents(n - 1, bytes[end..])
      case None => None
      case Some(ws) => Some([WireEvent(bytes[0], bytes[1], bytes[3..end])] + ws)
  }

  function ParseEventPacket(packet: seq<byte>): Option<seq<WireEvent>> {
    if packet == [] then None else ParseEvents(packet[0], packet[1..])
  }

  predicate Encodable(ws: seq<WireEvent>) {
    |ws| <= 0xFF && forall i :: 0 <= i < |ws| ==> |ws[i].data| <= 0xFF
  }

  lemma {:induction false} EventsAppend(a: seq<WireEvent>, b: seq<WireEvent>)
    ensures EncodeEvents(a + b) == EncodeEvents(a) + EncodeEvents(b)
  {
    if a == [] {
      assert a + b == b;
    } else {
      assert (a + b)[1..] == a[1..] + b;
      EventsAppend(a[1..], b);
    }
  }

  lemma ParseFirst(n: nat, w: WireEvent, tail: seq<byte>)
    requires |w.data| <= 0xFF
    ensures ParseEvents(n + 1, WireBytes(w) + tail) ==
            match ParseEvents(n, tail) case None => None case Some(ws) => Some([w] + ws)
  {
    var bytes, end := WireBytes(w) + tail, 3 + |w.data|;
    assert bytes[0] == w.instanceId && bytes[1] == w.command && bytes[2] == |w.data|;
    assert bytes[3..end] == w.data && bytes[end..] == tail;
  }

  /** The bytes of a packet: the count, then for each event instance id, command, size and data. */
  lemma EventPacketLayout(a: seq<WireEvent>, w: WireEvent, b: seq<WireEvent>)
    ensures var packet, at := EventPacket(a + [w] + b), 1 + |EncodeEvents(a)|;
            && packet[0] == (|a| + 1 + |b|) % 0x100
            && at + 3 + |w.data| <= |packet|
            && packet[at..at + 3] == [w.instanceId, w.command, |w.data| % 0x100]
            && packet[at + 3..at + 3 + |w.data|] == w.data
  {
    var bytes := WireBytes(w);
    var header, after := [ToU8(|a + [w] + b|)] + EncodeEvents(a), EncodeEvents(b);
    assert ToU8(|a + [w] + b|) == (|a| + 1 + |b|) % 0x100;
    PacketAround(a, w, b);
    WireLayout(w);
    hide EventPacket, EncodeEvents, WireBytes, ToU8;
    SliceOfMiddle(header, bytes, after, 0, 3);
    SliceOfMiddle(header, bytes, after, 3, |bytes|);
  }

  lemma WireLayout(w: WireEvent)
    ensures var bytes := WireBytes(w);
            && |bytes| == 3 + |w.data| && bytes[0..3] == [w.instanceId, w.command, |w.data| % 0x100]
            && bytes[3..|bytes|] == w.data
  {
  }

  lemma PacketAround(a: seq<WireEvent>, w: WireEvent, b: seq<WireEvent>)
    ensures EventPacket(a + [w] + b) == [ToU8(|a + [w] + b|)] + EncodeEvents(a) + WireBytes(w) + EncodeEvents(b)
  {
    hide ToU8, WireBytes, EncodeEvents;
    EventsAround(a, w, b);
    var n, before, bytes, after := ToU8(|a + [w] + b|), EncodeEvents(a), WireBytes(w), EncodeEvents(b);
    ConcatAssociates([n], before + bytes, after);
    ConcatAssociates([n], before, bytes);
  }

  lemma EventsAround(a: seq<WireEvent>, w: WireEvent, b: seq<WireEvent>)
    ensures EncodeEvents(a + [w] + b) == EncodeEvents(a) + WireBytes(w) + EncodeEvents(b)
  {
    hide WireBytes;
    EventsAppend(a + [w], b);
    EventsAppend(a, [w]);
    EncodeOne(w);
    hide EncodeEvents;
  }

  lemma EncodeOne(w: WireEvent)
    ensures EncodeEvents([w]) == WireBytes(w)
  {
    assert [w][1..] == [];
  }

  lemma {:induction false} EventsParse(ws: seq<WireEvent>)
    requires forall i :: 0 <= i < |ws| ==> |ws[i].data| <= 0xFF
    ensures ParseEvents(|ws|, EncodeEvents(ws)) == Some(ws)
  {
    hide WireBytes;
    if ws != [] {
      EventsParse(ws[1..]);
      ParseFirst(|ws| - 1, ws[0], EncodeEvents(ws[1..]));
      assert ws == [ws[0]] + ws[1..];
    }
  }

  lemma {:induction false} ParsedFits(n: nat, bytes: seq<byte>)
    ensures var r := ParseEvents(n, bytes);
            r.Some? ==> |r.value| == n && forall i :: 0 <= i < n ==> |r.value[i].data| <= 0xFF
  {
    if n > 0 && ParseEvents(n, bytes).Some? {
      ParsedFits(n - 1, bytes[3 + bytes[2] as int..]);
    }
  }

  /**
   The packet gives back exactly the events put in, in order and with their data, if and only
   if there are at most 255 of them with at most 255 bytes of data each.
   */
  lemma EventPacketRoundTrip(ws: seq<WireEvent>)
    ensures ParseEventPacket(EventPacket(ws)) == Some(ws) <==> Encodable(ws)
  {
    assert EventPacket(ws)[1..] == EncodeEvents(ws);
    if Encodable(ws) {
      EventsParse(ws);
    }
    ParsedFits(ToU8(|ws|), EncodeEvents(ws));
  }
}
