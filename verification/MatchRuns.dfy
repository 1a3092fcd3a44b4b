/**
 The life of one match as a step system: every operation of source/Match.cpp as a function on
 values, and the properties of every run.
 */
module MatchRuns {
  import opened Bytes
  import opened BufferUtils
  import opened MatchModel

  /** MatchState; Created is the source's None. */
  datatype Phase = Created | JoinedWaiting | Started | Ended

  /** buffer is m_orientation_send_buffer, empty while it is null. */
  datatype MatchState = MatchState(phase: Phase, players: Roster, buffer: seq<byte>)

  // ---------------------------------------------------------------- operations

  function InitMatch(m: MatchState): MatchState {
    if m.phase.Created? then m.(phase := JoinedWaiting) else m
  }

  /** JoinPlayer: the instance id is the roster size after insertion, as a byte. */
  function Join(m: MatchState, p: PlayerState): MatchState {
    if m.phase.JoinedWaiting? then
      var n := |m.players.Keys + {p.userId}|;
      m.(players := m.players[p.userId := p.(instanceId := ToU8(n))])
    else m
  }

  function Remove(m: MatchState, userId: uint32): MatchState {
    m.(players := m.players - {userId})
  }

  /** The buffer is sized by the roster size as a byte. */
  function BufferSize(n: nat): nat {
    29 * ToU8(n) + 1
  }

  /** The contents of freshly allocated memory are an input. */
  function Sized(junk: seq<byte>, n: nat): (r: seq<byte>)
    ensures |r| == n
  {
    if |junk| == n then junk else seq(n, _ => 0)
  }

  function Start(m: MatchState, junk: seq<byte>): MatchState {
    if m.phase.JoinedWaiting?
    then m.(phase := Started, buffer := Sized(junk, BufferSize(|m.players|)))
    else m
  }

  function EndMatch(m: MatchState): MatchState {
    m.(phase := Ended)
  }

  /**
   The update is read as seven floats through a pointer, whatever the size of the command;
   beyond is what memory holds behind a command that is too short.
   */
  function ReadUpdate(data: seq<byte>, beyond: seq<byte>): (r: seq<byte>)
    ensures |r| == ORIENTATION_SIZE
  {
    Sized(if |data + beyond| >= ORIENTATION_SIZE then (data + beyond)[..ORIENTATION_SIZE] else [], ORIENTATION_SIZE)
  }

  function Oriented(p: PlayerState, raw: seq<byte>): PlayerState
    requires |raw| >= ORIENTATION_SIZE
  {
    p.(location := ReadLocation(raw), rotation := ReadRotation(raw))
  }

  /** Add_Player_Event: only Jump is forwarded. */
  function AddEvent(p: PlayerState, e: PlayerEvent): PlayerState {
    if e.command == EVENT_JUMP then p.(events := p.events + [e]) else p
  }

  /** SubmitPlayerEvent, on the command bytes behind the Player_Event code. */
  function SubmitEvent(p: PlayerState, data: seq<byte>): PlayerState {
    if data != [] && p.authenticated
    then AddEvent(p, PlayerEvent(data[0], RemoveFront(REMOVE_CMD, data)))
    else p
  }

  /** What a command does to the player who sent it. */
  function ExecuteOnPlayer(p: PlayerState, buffer: seq<byte>, beyond: seq<byte>): PlayerState {
    if buffer == [] then p
    else
      var rest := RemoveFront(REMOVE_CMD, buffer);
      if buffer[0] == UPDATE_ORIENTATION then Oriented(p, ReadUpdate(rest, beyond))
      else if buffer[0] == PLAYER_EVENT then SubmitEvent(p, rest)
      else p
  }

  /** ExecuteNetCommand. */
  function Execute(m: MatchState, userId: uint32, buffer: seq<byte>, beyond: seq<byte>, junk: seq<byte>): MatchState {
    if userId !in m.players then m
    else if buffer != [] && buffer[0] == DEBUG_START then Start(m, junk)
    else m.(players := m.players[userId := ExecuteOnPlayer(m.players[userId], buffer, beyond)])
  }

  function Keys(m: MatchState): (ks: seq<uint32>)
    ensures forall k :: k in ks <==> k in m.players
    ensures |ks| == |m.players|
  {
    KeyOrderHasKeys(m.players.Keys);
    KeyOrder(m.players.Keys)
  }

  /** The players in the order of the loops over m_players. */
  function Players(m: MatchState): (ps: seq<PlayerState>)
    ensures |ps| == |m.players|
  {
    InOrder(m.players, Keys(m))
  }

  function RosterEntries(m: MatchState): seq<OrientationEntry> {
    Map(EntryOf, Players(m))
  }

  /** The fill loop of SendOrientationUpdates stays inside the buffer. */
  predicate Fits(m: MatchState) {
    1 + 29 * |m.players| <= |m.buffer|
  }

  /** SendOrientationUpdates: the front of the buffer is overwritten, its old tail stays. */
  function Filled(m: MatchState): seq<byte>
    requires Fits(m)
  {
    [ToU8(|m.players|)] + (EncodeEntries(RosterEntries(m)) + m.buffer[1 + 29 * |m.players|..])
  }

  function RosterPending(m: MatchState): seq<Outgoing> {
    AllPending(Players(m))
  }

  function Silenced(players: Roster): Roster {
    map k | k in players :: players[k].(events := [])
  }

  /** Nothing is sent when the event count, kept in a byte, is zero. */
  function Packet(batch: seq<Outgoing>): Option<seq<byte>> {
    if ToU8(|batch|) == 0 then None else Some(EventPacket(Map(ToWire, batch)))
  }

  function EventsToSend(m: MatchState): Option<seq<byte>> {
    Packet(RosterPending(m))
  }

  // ---------------------------------------------------------------- one packet at a time

  lemma FilledSmall(m: MatchState)
    requires Fits(m) && |m.players| <= 0xFF
    ensures Filled(m) == [|m.players|] + (EncodeEntries(RosterEntries(m)) + m.buffer[1 + 29 * |m.players|..])
  {
  }

  /**
   The orientation packet starts with the current player count and decodes to every player in
   key order with its instance id and orientation, bytes left from a larger roster ignored.
   */
  lemma OrientationPacketDecodes(m: MatchState)
    requires Fits(m) && |m.players| <= 0xFF
    ensures Filled(m)[0] == |m.players|
    ensures DecodeOrientations(Filled(m)) == Some(RosterEntries(m))
    ensures |RosterEntries(m)| == |m.players| && |Filled(m)| == |m.buffer|
    ensures forall i :: 0 <= i < |m.players| ==> RosterEntries(m)[i] == EntryOf(m.players[Keys(m)[i]])
  {
    var es, tail := RosterEntries(m), m.buffer[1 + 29 * |m.players|..];
    EntriesDecode(es, tail);
    FilledSmall(m);
    PacketDecodes(|m.players|, es, tail);
  }

  /** The bytes of the orientation packet: the count, then 29 bytes a player in key order. */
  lemma OrientationPacketLayout(m: MatchState, i: nat)
    requires Fits(m) && |m.players| <= 0xFF && i < |m.players|
    ensures Filled(m)[0] == |m.players| && |Filled(m)| == |m.buffer|
    ensures Filled(m)[1 + 29 * i] == m.players[Keys(m)[i]].instanceId
    ensures Filled(m)[2 + 29 * i..30 + 29 * i] == Orientation(m.players[Keys(m)[i]])
  {
    var es, tail := RosterEntries(m), m.buffer[1 + 29 * |m.players|..];
    OrientationPacketDecodes(m);
    FilledSmall(m);
    assert es[i] == EntryOf(m.players[Keys(m)[i]]) && forall j :: 0 <= j < |es| ==> |es[j].orientation| == 28;
    hide RosterEntries, EncodeEntries, Filled, SerializeOrientation, Keys;
    EntryIn(|m.players|, es, tail, i);
  }

  lemma EntryIn(n: byte, es: seq<OrientationEntry>, tail: seq<byte>, i: nat)
    requires i < |es| && forall j :: 0 <= j < |es| ==> |es[j].orientation| == ORIENTATION_SIZE
    ensures var packet := [n] + (EncodeEntries(es) + tail);
            && 30 + 29 * i <= |packet| && packet[1 + 29 * i] == es[i].instanceId
            && packet[2 + 29 * i..30 + 29 * i] == es[i].orientation
  {
    EntryAt(es, i);
    var at := 29 * i;
    hide EncodeEntries;
    ConcatAssociates([n], EncodeEntries(es), tail);
    SliceOfMiddle([n], EncodeEntries(es), tail, at + 1, at + 29);
  }

  /**
   With n players at the start the buffer holds a broadcast of a roster of any later size k if
   and only if k is at most n modulo 256; for the roster it was sized by, if and only if n is
   at most 255.
   */
  lemma BufferFitsExactly(m: MatchState, junk: seq<byte>, later: Roster)
    requires m.phase.JoinedWaiting?
    ensures Fits(Start(m, junk).(players := later)) <==> |later| <= |m.players| % 0x100
    ensures Fits(Start(m, junk)) <==> |m.players| <= 0xFF
  {
    var n := |m.players|;
    assert |Start(m, junk).buffer| == 29 * ToU8(n) + 1;
    assert n <= 0xFF ==> ToU8(n) == n;
  }

  // ---------------------------------------------------------------- runs

  datatype Event =
    | Initialise
    | JoinPlayer(player: PlayerState)
    | RemovePlayer(userId: uint32)
    | SetAuthenticated(userId: uint32, flag: bool)
    | StartMatch(junk: seq<byte>)
    | End
    | ExecuteCommand(userId: uint32, buffer: seq<byte>, beyond: seq<byte>, junk: seq<byte>)
    | SendOrientations
    | SendEvents

  function NewMatch(): MatchState {
    MatchState(Created, map[], [])
  }

  /** Player.Add_Player_Event lets nothing but Jump into a player's queue. */
  predicate OnlyJumps(events: seq<PlayerEvent>) {
    forall i :: 0 <= i < |events| ==> events[i].command == EVENT_JUMP
  }

  function Flagged(m: MatchState, userId: uint32, flag: bool): MatchState {
    if userId in m.players
    then m.(players := m.players[userId := m.players[userId].(authenticated := flag)])
    else m
  }

  /** None: the fill loop would write past the buffer, or no player joins like that. */
  function Step(m: MatchState, e: Event): Option<MatchState> {
    match e
    case Initialise => Some(InitMatch(m))
    case JoinPlayer(p) => if OnlyJumps(p.events) then Some(Join(m, p)) else None
    case RemovePlayer(userId) => Some(Remove(m, userId))
    case SetAuthenticated(userId, flag) => Some(Flagged(m, userId, flag))
    case StartMatch(junk) => Some(Start(m, junk))
    case End => Some(EndMatch(m))
    case ExecuteCommand(userId, buffer, beyond, junk) => Some(Execute(m, userId, buffer, beyond, junk))
    case SendOrientations =>
      if !m.phase.Started? then Some(m)
      else if Fits(m) then Some(m.(buffer := Filled(m)))
      else None
    case SendEvents => Some(if m.phase.Started? then m.(players := Silenced(m.players)) else m)
  }

  /** Everything can happen in every state, but for a broadcast that would leave the buffer. */
  lemma StepIsPossible(m: MatchState, e: Event)
    ensures Step(m, e).None? <==>
            || (e.JoinPlayer? && exists i :: 0 <= i < |e.player.events| && e.player.events[i].command != 1)
            || (e.SendOrientations? && m.phase.Started? && |m.buffer| < 1 + 29 * |m.players|)
    ensures e.SendOrientations? && !m.phase.Started? ==> Step(m, e) == Some(m)
  {
  }

  function Run(m: MatchState, es: seq<Event>): Option<MatchState>
    decreases |es|
  {
    if es == [] then Some(m)
    else match Step(m, es[0])
         case None => None
         case Some(next) => Run(next, es[1..])
  }

  lemma RunCons(m: MatchState, e: Event, es: seq<Event>)
    ensures Run(m, [e] + es) == match Step(m, e) case None => None case Some(next) => Run(next, es)
  {
    assert ([e] + es)[1..] == es;
  }

  lemma {:induction false} RunAppend(m: MatchState, a: seq<Event>, n: MatchState, b: seq<Event>)
    requires Run(m, a) == Some(n)
    ensures Run(m, a + b) == Run(n, b)
    decreases |a|
  {
    if a == [] {
      assert a + b == b;
    } else {
      assert (a + b)[1..] == a[1..] + b;
      RunAppend(Step(m, a[0]).value, a[1..], n, b);
    }
  }
}
