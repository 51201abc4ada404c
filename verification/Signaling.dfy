/**
 The signaling server: any number of connections share the registry of rooms
 and the request counter, each behind its own lock. A step is one lock
 acquisition, one section under a lock, one send, or one outside event, so a
 list of steps is an interleaving. Steps that are not possible change nothing.
 */
module Signaling {
  import opened Prelude
  import opened Model

  type PeerId = string
  type Group = string
  type Room = map<PeerId, ClientInfoWithoutId>
  type Rooms = map<Group, Room>
  type Counts = map<Group, u32>

  datatype Limits = Limits(maxConnections: nat, maxRequests: u32)

  // The sections under the locks

  function RoomOf(rooms: Rooms, g: Group): Room {
    if g in rooms then rooms[g] else map[]
  }

  function Opened(rooms: Rooms, g: Group): Rooms {
    if g in rooms then rooms else rooms[g := map[]]
  }

  function Entered(rooms: Rooms, g: Group, id: PeerId, info: ClientInfoWithoutId): Rooms {
    rooms[g := RoomOf(rooms, g)[id := info]]
  }

  function Vacated(rooms: Rooms, g: Group, id: PeerId): Rooms {
    if g !in rooms then rooms
    else if rooms[g] - {id} == map[] then rooms - {g}
    else rooms[g := rooms[g] - {id}]
  }

  function Revised(rooms: Rooms, g: Group, id: PeerId, info: ClientInfoWithoutId): Rooms {
    if id in RoomOf(rooms, g) then rooms[g := rooms[g][id := info]] else rooms
  }

  function CountOf(counts: Counts, g: Group): u32 {
    if g in counts then counts[g] else 0
  }

  /** What a connection has got from the shared state, and what it left there. */
  datatype Admission = Admission(peers: Option<Room>, rooms: Rooms)

  /** The outcome of the section of a connect, as the program promises it. */
  function Admit(limits: Limits, rooms: Rooms, counts: Counts, g: Group, id: PeerId, info: ClientInfoWithoutId): Admission {
    if |RoomOf(rooms, g)| < limits.maxConnections && CountOf(counts, g) < limits.maxRequests
    then Admission(Some(RoomOf(rooms, g)), Entered(rooms, g, id, info))
    else Admission(None, Opened(rooms, g))
  }

  // Messages

  datatype ClientMessage =
    | ClientUpdate(info: ClientInfoWithoutId)
    | ClientOffer(sessionId: string, target: PeerId, sdp: string)
    | ClientAnswer(sessionId: string, target: PeerId, sdp: string)

  /** The list of peers in a greeting has no particular order. */
  datatype ServerMessage =
    | Hello(client: ClientInfo, peers: Room)
    | Join(peer: ClientInfo)
    | Update(peer: ClientInfo)
    | Left(id: PeerId)
    | Offer(sdp: WsServerSdpMessage)
    | Answer(sdp: WsServerSdpMessage)
    | Refusal(code: u16)

  const TOO_MANY_REQUESTS: u16 := 429

  /** What is sent for a client's message, to the one that is to receive it. */
  function Relay(peer: ClientInfo, m: ClientMessage): ServerMessage {
    match m
    case ClientUpdate(info) => Update(WithId(info, peer.id))
    case ClientOffer(sessionId, _, sdp) => Offer(WsServerSdpMessage(peer, sessionId, sdp))
    case ClientAnswer(sessionId, _, sdp) => Answer(WsServerSdpMessage(peer, sessionId, sdp))
  }

  // Tasks

  /** How far a connection's main task is. The lock of the rooms is held in the states so marked. */
  datatype MainPc =
    | Asking                                  // waits for the rooms
    | Checking                                // holds the rooms
    | WantsCount                              // holds the rooms, waits for the counter
    | Counting                                // holds the rooms and the counter
    | Admitted                                // holds the rooms
    | Refused
    | Joining(met: Room, pending: set<PeerId>)
    | Serving
    | Parting                                 // waits for the rooms
    | Removing                                // holds the rooms
    | Leaving(pending: set<PeerId>)

  /** How far the reader of a connection's socket is. */
  datatype ReaderPc =
    | Unborn
    | Listening
    | ReaderWantsCount(message: ClientMessage)   // waits for the counter
    | ReaderCounting(message: ClientMessage)     // holds the counter
    | Denied
    | WantsRooms(message: ClientMessage)         // waits for the rooms
    | InRooms(message: ClientMessage)            // holds the rooms
    | Spreading(message: ClientMessage, pending: set<PeerId>)
    | Over

  datatype ClockPc = Resting | ClockWantsCount | Clearing

  datatype Conn = Conn(group: Group, info: ClientInfoWithoutId, main: MainPc, reader: ReaderPc)

  datatype TaskId = Main(id: PeerId) | Reader(id: PeerId) | Clock

  /** What has happened, in order. */
  datatype Happening =
    | Counted(group: Group, task: TaskId)
    | Cleared
    | Registered(id: PeerId, group: Group)
    | Removed(id: PeerId, group: Group)
    | Heard(id: PeerId, group: Group, request: ClientMessage)      // a message of a client was counted and is acted upon
    | Queued(at: PeerId, message: ServerMessage)

  type Log = seq<Happening>

  datatype State = State(
    rooms: Rooms, counts: Counts, roomsLock: Option<TaskId>, countLock: Option<TaskId>,
    conns: map<PeerId, Conn>, clock: ClockPc, log: Log)

  const EMPTY: State := State(map[], map[], None, None, map[], Resting, [])

  datatype Step =
    | Arrive(id: PeerId, group: Group, info: ClientInfoWithoutId)
    | Lock(task: TaskId)
    | Act(task: TaskId)
    | Deliver(task: TaskId, to: PeerId)
    | Hear(id: PeerId, message: ClientMessage)
    | Abort(id: PeerId)
    | Disconnect(id: PeerId)
    | Tick

  // Steps

  function AtMain(s: State, id: PeerId, pc: MainPc): State
    requires id in s.conns
  {
    s.(conns := s.conns[id := s.conns[id].(main := pc)])
  }

  function AtReader(s: State, id: PeerId, pc: ReaderPc): State
    requires id in s.conns
  {
    s.(conns := s.conns[id := s.conns[id].(reader := pc)])
  }

  function Noted(s: State, h: Happening): State {
    s.(log := s.log + [h])
  }

  function DoArrive(s: State, id: PeerId, g: Group, info: ClientInfoWithoutId): State {
    if id in s.conns then s else s.(conns := s.conns[id := Conn(g, info, Asking, Unborn)])
  }

  function DoLock(s: State, t: TaskId): State {
    match t
    case Main(id) =>
      if id !in s.conns then s
      else (match s.conns[id].main
        case Asking => if s.roomsLock.None? then AtMain(s, id, Checking).(roomsLock := Some(t)) else s
        case WantsCount => if s.countLock.None? then AtMain(s, id, Counting).(countLock := Some(t)) else s
        case Parting => if s.roomsLock.None? then AtMain(s, id, Removing).(roomsLock := Some(t)) else s
        case _ => s)
    case Reader(id) =>
      if id !in s.conns then s
      else (match s.conns[id].reader
        case ReaderWantsCount(m) => if s.countLock.None? then AtReader(s, id, ReaderCounting(m)).(countLock := Some(t)) else s
        case WantsRooms(m) => if s.roomsLock.None? then AtReader(s, id, InRooms(m)).(roomsLock := Some(t)) else s
        case _ => s)
    case Clock =>
      if s.clock.ClockWantsCount? && s.countLock.None? then s.(clock := Clearing, countLock := Some(t)) else s
  }

  /** Opens the room and looks whether it is full. */
  function DoCheck(limits: Limits, s: State, id: PeerId): State
    requires id in s.conns
  {
    var entry := s.(rooms := Opened(s.rooms, s.conns[id].group));
    if |RoomOf(s.rooms, s.conns[id].group)| >= limits.maxConnections then AtMain(entry, id, Refused).(roomsLock := None)
    else AtMain(entry, id, WantsCount)
  }

  predicate MayCount(limits: Limits, s: State, g: Group) {
    CountOf(s.counts, g) < limits.maxRequests
  }

  function CountUp(limits: Limits, s: State, g: Group, t: TaskId): State
    requires MayCount(limits, s, g)
  {
    Noted(s, Counted(g, t)).(counts := s.counts[g := CountOf(s.counts, g) + 1])
  }

  /** The entry of the counter is made even if the request is refused. */
  function Seen(s: State, g: Group): State {
    s.(counts := s.counts[g := CountOf(s.counts, g)])
  }

  function DoCountConnect(limits: Limits, s: State, id: PeerId): State
    requires id in s.conns
  {
    var g := s.conns[id].group;
    if MayCount(limits, s, g) then AtMain(CountUp(limits, s, g, Main(id)), id, Admitted).(countLock := None)
    else AtMain(Seen(s, g), id, Refused).(countLock := None, roomsLock := None)
  }

  function DoRegister(s: State, id: PeerId): State
    requires id in s.conns
  {
    var c := s.conns[id];
    var met := RoomOf(s.rooms, c.group);
    AtMain(Noted(s, Registered(id, c.group)), id, Joining(met, met.Keys))
      .(rooms := Entered(s.rooms, c.group, id, c.info), roomsLock := None)
  }

  function DoRemove(s: State, id: PeerId): State
    requires id in s.conns
  {
    var c := s.conns[id];
    var rooms := Vacated(s.rooms, c.group, id);
    AtMain(Noted(s, Removed(id, c.group)), id, Leaving(RoomOf(rooms, c.group).Keys)).(rooms := rooms, roomsLock := None)
  }

  function DoCountMessage(limits: Limits, s: State, id: PeerId, m: ClientMessage): State
    requires id in s.conns
  {
    var g := s.conns[id].group;
    if MayCount(limits, s, g) then
      AtReader(Noted(CountUp(limits, s, g, Reader(id)), Heard(id, g, m)), id, WantsRooms(m)).(countLock := None)
    else AtReader(Seen(s, g), id, Denied).(countLock := None)
  }

  /** The receivers of a client's message, found under the lock of the rooms. */
  function Receivers(room: Room, id: PeerId, m: ClientMessage): set<PeerId> {
    match m
    case ClientUpdate(_) => if id in room then room.Keys - {id} else {}
    case _ => if m.target in room then {m.target} else {}
  }

  function DoLookUp(s: State, id: PeerId, m: ClientMessage): State
    requires id in s.conns
  {
    var g := s.conns[id].group;
    var rooms := if m.ClientUpdate? then Revised(s.rooms, g, id, m.info) else s.rooms;
    AtReader(s, id, Spreading(m, Receivers(RoomOf(s.rooms, g), id, m))).(rooms := rooms, roomsLock := None)
  }

  function DoMainAct(limits: Limits, s: State, id: PeerId): State {
    if id !in s.conns then s
    else match s.conns[id].main
      case Checking => DoCheck(limits, s, id)
      case Counting => DoCountConnect(limits, s, id)
      case Admitted => DoRegister(s, id)
      case Removing => DoRemove(s, id)
      case _ => s
  }

  function DoReaderAct(limits: Limits, s: State, id: PeerId): State {
    if id !in s.conns then s
    else match s.conns[id].reader
      case ReaderCounting(m) => DoCountMessage(limits, s, id, m)
      case InRooms(m) => DoLookUp(s, id, m)
      case Spreading(_, pending) => if pending == {} then AtReader(s, id, Listening) else s
      case _ => s
  }

  function DoClockAct(s: State): State {
    if s.clock.Clearing? then Noted(s, Cleared).(clock := Resting, countLock := None, counts := map[]) else s
  }

  function DoAct(limits: Limits, s: State, t: TaskId): State {
    match t
    case Main(id) => DoMainAct(limits, s, id)
    case Reader(id) => DoReaderAct(limits, s, id)
    case Clock => DoClockAct(s)
  }

  function SelfOf(s: State, id: PeerId): ClientInfo
    requires id in s.conns
  {
    WithId(s.conns[id].info, id)
  }

  /** A connection greets itself once it has announced itself to everyone it met. */
  function DoMainDeliver(s: State, id: PeerId, to: PeerId): State {
    if id !in s.conns then s
    else match s.conns[id].main
      case Joining(met, pending) =>
        if to in pending then
          Noted(AtMain(s, id, Joining(met, pending - {to})), Queued(to, Join(SelfOf(s, id))))
        else if pending == {} && to == id then
          AtReader(Noted(AtMain(s, id, Serving), Queued(to, Hello(SelfOf(s, id), met))), id, Listening)
        else s
      case Leaving(pending) =>
        if to in pending then Noted(AtMain(s, id, Leaving(pending - {to})), Queued(to, Left(id))) else s
      case _ => s
  }

  function DoReaderDeliver(s: State, id: PeerId, to: PeerId): State {
    if id !in s.conns then s
    else match s.conns[id].reader
      case Spreading(m, pending) =>
        if to in pending then Noted(AtReader(s, id, Spreading(m, pending - {to})), Queued(to, Relay(SelfOf(s, id), m))) else s
      case Denied =>
        if to == id then Noted(AtReader(s, id, Over), Queued(to, Refusal(TOO_MANY_REQUESTS))) else s
      case _ => s
  }

  /** One send. */
  function DoDeliver(s: State, t: TaskId, to: PeerId): State {
    match t
    case Main(id) => DoMainDeliver(s, id, to)
    case Reader(id) => DoReaderDeliver(s, id, to)
    case Clock => s
  }

  function DoHear(s: State, id: PeerId, m: ClientMessage): State {
    if id in s.conns && s.conns[id].reader.Listening? then AtReader(s, id, ReaderWantsCount(m)) else s
  }

  predicate HoldsLock(pc: ReaderPc) {
    pc.ReaderCounting? || pc.InRooms?
  }

  /** A reader stops wherever it may wait: never under a lock, and never before it was started. */
  function DoAbort(s: State, id: PeerId): State {
    if id in s.conns && !s.conns[id].reader.Unborn? && !HoldsLock(s.conns[id].reader) then AtReader(s, id, Over) else s
  }

  function DoDisconnect(s: State, id: PeerId): State {
    if id in s.conns && s.conns[id].main.Serving? then AtMain(s, id, Parting) else s
  }

  function Do(limits: Limits, s: State, step: Step): State {
    match step
    case Arrive(id, g, info) => DoArrive(s, id, g, info)
    case Lock(t) => DoLock(s, t)
    case Act(t) => DoAct(limits, s, t)
    case Deliver(t, to) => DoDeliver(s, t, to)
    case Hear(id, m) => DoHear(s, id, m)
    case Abort(id) => DoAbort(s, id)
    case Disconnect(id) => DoDisconnect(s, id)
    case Tick => if s.clock.Resting? then s.(clock := ClockWantsCount) else s
  }

  /** The state that an interleaving reaches from the empty server. */
  function Reach(limits: Limits, steps: seq<Step>): State {
    if steps == [] then EMPTY else Do(limits, Reach(limits, steps[..|steps| - 1]), steps[|steps| - 1])
  }

  // The shared state of the program, and the sections as it runs them

  class AppState {
    var txMap: Rooms
    var requestCountMap: Counts
    const limits: Limits

    constructor (limits: Limits)
      ensures txMap == map[] && requestCountMap == map[] && this.limits == limits
    {
      txMap := map[];
      requestCountMap := map[];
      this.limits := limits;
    }

    method ProtectDdosRequestCount(group: Group) returns (ok: bool)
      modifies this`requestCountMap
      ensures ok == (CountOf(old(requestCountMap), group) < limits.maxRequests)
      ensures CountOf(requestCountMap, group) == CountOf(old(requestCountMap), group) + if ok then 1 else 0
      ensures forall g :: g != group ==> CountOf(requestCountMap, g) == CountOf(old(requestCountMap), g)
    {
      if group !in requestCountMap {
        requestCountMap := requestCountMap[group := 0];
      }
      if requestCountMap[group] >= limits.maxRequests {
        return false;
      }
      requestCountMap := requestCountMap[group := requestCountMap[group] + 1];
      ok := true;
    }

    /** The section of a connect: the peers met, or nothing if a limit is reached. */
    method Connect(group: Group, id: PeerId, info: ClientInfoWithoutId) returns (peers: Option<Room>)
      modifies this
      ensures peers.Some? <==>
        |RoomOf(old(txMap), group)| < limits.maxConnections && CountOf(old(requestCountMap), group) < limits.maxRequests
      ensures peers.Some? ==> peers.value == RoomOf(old(txMap), group) && txMap == Entered(old(txMap), group, id, info)
      ensures peers.None? ==> txMap == Opened(old(txMap), group)
      ensures |RoomOf(old(txMap), group)| >= limits.maxConnections ==> requestCountMap == old(requestCountMap)
      ensures Admission(peers, txMap) == Admit(limits, old(txMap), old(requestCountMap), group, id, info)
    {
      if group !in txMap {
        txMap := txMap[group := map[]];
      }
      if |txMap[group]| >= limits.maxConnections {
        return None;
      }
      var counted := ProtectDdosRequestCount(group);
      if !counted {
        return None;
      }
      peers := Some(txMap[group]);
      txMap := txMap[group := txMap[group][id := info]];
    }

    /** The section of a cleanup: who remains to be told. */
    method Disconnect(group: Group, id: PeerId) returns (remaining: set<PeerId>)
      modifies this`txMap
      ensures forall g :: RoomOf(txMap, g) == if g == group then RoomOf(old(txMap), g) - {id} else RoomOf(old(txMap), g)
      ensures remaining == RoomOf(old(txMap), group).Keys - {id} && (group in txMap <==> remaining != {})
      ensures forall g :: g != group ==> (g in txMap <==> g in old(txMap))
      ensures txMap == Vacated(old(txMap), group, id)
    {
      remaining := {};
      if group in txMap {
        txMap := txMap[group := txMap[group] - {id}];
        if txMap[group] == map[] {
          txMap := txMap - {group};
        } else {
          remaining := txMap[group].Keys;
        }
      }
    }

    /** The section of an update: one entry is changed, if it is still there, and nothing else; the others of the room are to be told. */
    method SendUpdate(group: Group, id: PeerId, info: ClientInfoWithoutId) returns (others: set<PeerId>)
      modifies this`txMap
      ensures forall g :: RoomOf(txMap, g).Keys == RoomOf(old(txMap), g).Keys
      ensures forall g, x :: x in RoomOf(txMap, g) ==>
        RoomOf(txMap, g)[x] == if g == group && x == id then info else RoomOf(old(txMap), g)[x]
      ensures txMap.Keys == old(txMap).Keys
      ensures id in RoomOf(txMap, group) ==> others + {id} == RoomOf(txMap, group).Keys && id !in others
      ensures id !in RoomOf(txMap, group) ==> others == {} && txMap == old(txMap)
    {
      others := {};
      if group in txMap && id in txMap[group] {
        txMap := txMap[group := txMap[group][id := info]];
        others := txMap[group].Keys - {id};
      }
    }

    method SendToPeer(group: Group, origin: ClientInfo, m: ClientMessage) returns (receivers: set<PeerId>, message: ServerMessage)
      requires !m.ClientUpdate?
      ensures receivers == if m.target in RoomOf(txMap, group) then {m.target} else {}
      ensures message == match m
        case ClientOffer(sessionId, _, sdp) => Offer(WsServerSdpMessage(origin, sessionId, sdp))
        case ClientAnswer(sessionId, _, sdp) => Answer(WsServerSdpMessage(origin, sessionId, sdp))
      ensures receivers == Receivers(RoomOf(txMap, group), origin.id, m) && message == Relay(origin, m)
    {
      receivers := {};
      if group in txMap && m.target in txMap[group] {
        receivers := {m.target};
      }
      if m.ClientOffer? {
        message := Offer(WsServerSdpMessage(origin, m.sessionId, m.sdp));
      } else {
        message := Answer(WsServerSdpMessage(origin, m.sessionId, m.sdp));
      }
    }
  }
}
