/** What one step of the server does, component by component. */
module SignalingSteps {
  import opened Prelude
  import opened Model
  import opened Signaling

  function MainAfterLock(s: State, pc: MainPc): MainPc {
    match pc
    case Asking => if s.roomsLock.None? then Checking else pc
    case WantsCount => if s.countLock.None? then Counting else pc
    case Parting => if s.roomsLock.None? then Removing else pc
    case _ => pc
  }

  function MainAfterAct(limits: Limits, s: State, id: PeerId, c: Conn): MainPc {
    match c.main
    case Checking => if |RoomOf(s.rooms, c.group)| >= limits.maxConnections then Refused else WantsCount
    case Counting => if MayCount(limits, s, c.group) then Admitted else Refused
    case Admitted => Joining(RoomOf(s.rooms, c.group), RoomOf(s.rooms, c.group).Keys)
    case Removing => Leaving(RoomOf(s.rooms, c.group).Keys - {id})
    case _ => c.main
  }

  function MainAfterDeliver(id: PeerId, pc: MainPc, to: PeerId): MainPc {
    match pc
    case Joining(met, pending) =>
      if to in pending then Joining(met, pending - {to}) else if pending == {} && to == id then Serving else pc
    case Leaving(pending) => if to in pending then Leaving(pending - {to}) else pc
    case _ => pc
  }

  /** Where a step takes the main task of connection `id`. */
  function MainAfter(limits: Limits, s: State, step: Step, id: PeerId): MainPc
    requires id in s.conns
  {
    var c := s.conns[id];
    if step == Lock(Main(id)) then MainAfterLock(s, c.main)
    else if step == Act(Main(id)) then MainAfterAct(limits, s, id, c)
    else if step.Deliver? && step.task == Main(id) then MainAfterDeliver(id, c.main, step.to)
    else if step == Disconnect(id) && c.main.Serving? then Parting
    else c.main
  }

  function ReaderAfterAct(limits: Limits, s: State, id: PeerId, c: Conn): ReaderPc {
    match c.reader
    case ReaderCounting(m) => if MayCount(limits, s, c.group) then WantsRooms(m) else Denied
    case InRooms(m) => Spreading(m, Receivers(RoomOf(s.rooms, c.group), id, m))
    case Spreading(_, pending) => if pending == {} then Listening else c.reader
    case _ => c.reader
  }

  function ReaderAfterDeliver(id: PeerId, pc: ReaderPc, to: PeerId): ReaderPc {
    match pc
    case Spreading(m, pending) => if to in pending then Spreading(m, pending - {to}) else pc
    case Denied => if to == id then Over else pc
    case _ => pc
  }

  function ReaderAfter(limits: Limits, s: State, step: Step, id: PeerId): ReaderPc
    requires id in s.conns
  {
    var c := s.conns[id];
    if step == Lock(Reader(id)) then
      (match c.reader
       case ReaderWantsCount(m) => if s.countLock.None? then ReaderCounting(m) else c.reader
       case WantsRooms(m) => if s.roomsLock.None? then InRooms(m) else c.reader
       case _ => c.reader)
    else if step == Act(Reader(id)) then ReaderAfterAct(limits, s, id, c)
    else if step.Deliver? && step.task == Reader(id) then ReaderAfterDeliver(id, c.reader, step.to)
    else if step == Deliver(Main(id), id) && c.main.Joining? && c.main.pending == {} then Listening
    else if step.Hear? && step.id == id && c.reader.Listening? then ReaderWantsCount(step.message)
    else if step == Abort(id) && !c.reader.Unborn? && !HoldsLock(c.reader) then Over
    else c.reader
  }

  lemma {:induction false} VacatedRoom(rooms: Rooms, g: Group, id: PeerId)
    ensures RoomOf(Vacated(rooms, g, id), g) == RoomOf(rooms, g) - {id}
  {
    if g !in rooms {
      assert RoomOf(rooms, g) - {id} == RoomOf(rooms, g);
    }
  }

  /** Of all connections, only the main task of `id` moves, to `pc`. */
  ghost predicate OnlyMain(s: State, v: State, id: PeerId, pc: MainPc)
    requires id in s.conns
  {
    v.conns == s.conns[id := s.conns[id].(main := pc)]
  }

  lemma {:induction false} ChecksOnConn(limits: Limits, s: State, id: PeerId)
    requires id in s.conns
    ensures s.conns[id].main.Checking? ==> OnlyMain(s, DoCheck(limits, s, id), id, MainAfterAct(limits, s, id, s.conns[id]))
    ensures s.conns[id].main.Counting? ==> OnlyMain(s, DoCountConnect(limits, s, id), id, MainAfterAct(limits, s, id, s.conns[id]))
  {
  }

  lemma {:induction false} ChangesOnConn(limits: Limits, s: State, id: PeerId)
    requires id in s.conns
    ensures s.conns[id].main.Admitted? ==> OnlyMain(s, DoRegister(s, id), id, MainAfterAct(limits, s, id, s.conns[id]))
    ensures s.conns[id].main.Removing? ==> OnlyMain(s, DoRemove(s, id), id, MainAfterAct(limits, s, id, s.conns[id]))
  {
    VacatedRoom(s.rooms, s.conns[id].group, id);
  }

  lemma {:induction false} OnlyMainMoves(limits: Limits, s: State, id: PeerId)
    requires id in s.conns
    ensures var v := DoMainAct(limits, s, id);
      (v == s && MainAfterAct(limits, s, id, s.conns[id]) == s.conns[id].main) || OnlyMain(s, v, id, MainAfterAct(limits, s, id, s.conns[id]))
  {
    ChecksOnConn(limits, s, id);
    ChangesOnConn(limits, s, id);
  }

  lemma {:induction false} MainActOnConn(limits: Limits, s: State, id: PeerId, x: PeerId)
    ensures var v := DoMainAct(limits, s, id);
      v.conns.Keys == s.conns.Keys && (x in s.conns ==>
        v.conns[x] == if x == id then s.conns[x].(main := MainAfterAct(limits, s, id, s.conns[x])) else s.conns[x])
  {
    if id in s.conns {
      OnlyMainMoves(limits, s, id);
    }
  }

  lemma {:induction false} ReaderActOnConn(limits: Limits, s: State, id: PeerId, x: PeerId)
    ensures var v := DoReaderAct(limits, s, id);
      v.conns.Keys == s.conns.Keys && (x in s.conns ==>
        v.conns[x] == if x == id then s.conns[x].(reader := ReaderAfterAct(limits, s, id, s.conns[x])) else s.conns[x])
  {
  }

  lemma {:induction false} MainDeliverOnConn(s: State, id: PeerId, to: PeerId)
    requires id in s.conns
    ensures var v, c := DoMainDeliver(s, id, to), s.conns[id];
      v.conns == s.conns[id := c.(main := MainAfterDeliver(id, c.main, to),
                                  reader := if to == id && c.main.Joining? && c.main.pending == {} then Listening else c.reader)]
  {
    var c := s.conns[id];
    assert s.conns == s.conns[id := c];
  }

  lemma {:induction false} ReaderDeliverOnConn(s: State, id: PeerId, to: PeerId)
    requires id in s.conns
    ensures var v, c := DoReaderDeliver(s, id, to), s.conns[id];
      v.conns == s.conns[id := c.(reader := ReaderAfterDeliver(id, c.reader, to))]
  {
    var c := s.conns[id];
    assert s.conns == s.conns[id := c];
  }

  lemma {:induction false} DeliverOnConn(limits: Limits, s: State, t: TaskId, to: PeerId, x: PeerId)
    ensures var v, step := DoDeliver(s, t, to), Deliver(t, to);
      v.conns.Keys == s.conns.Keys && (x in s.conns ==>
        v.conns[x] == s.conns[x].(main := MainAfter(limits, s, step, x), reader := ReaderAfter(limits, s, step, x)))
  {
    if t.Main? && t.id in s.conns {
      MainDeliverOnConn(s, t.id, to);
    } else if t.Reader? && t.id in s.conns {
      ReaderDeliverOnConn(s, t.id, to);
    }
  }

  lemma {:induction false} MainLockOnConn(s: State, id: PeerId)
    requires id in s.conns
    ensures OnlyMain(s, DoLock(s, Main(id)), id, MainAfterLock(s, s.conns[id].main))
  {
    assert s.conns == s.conns[id := s.conns[id]];
  }

  lemma {:induction false} ReaderLockOnConn(limits: Limits, s: State, id: PeerId)
    requires id in s.conns
    ensures DoLock(s, Reader(id)).conns == s.conns[id := s.conns[id].(reader := ReaderAfter(limits, s, Lock(Reader(id)), id))]
  {
    assert s.conns == s.conns[id := s.conns[id]];
  }

  lemma {:induction false} LockOnConn(limits: Limits, s: State, t: TaskId, x: PeerId)
    ensures var v, step := DoLock(s, t), Lock(t);
      v.conns.Keys == s.conns.Keys && (x in s.conns ==>
        v.conns[x] == s.conns[x].(main := MainAfter(limits, s, step, x), reader := ReaderAfter(limits, s, step, x)))
  {
    if t.Main? && t.id in s.conns {
      MainLockOnConn(s, t.id);
    } else if t.Reader? && t.id in s.conns {
      ReaderLockOnConn(limits, s, t.id);
    }
  }

  /** Connections keep their group and their information, and move as just described. */
  lemma {:induction false} StepOnConn(limits: Limits, s: State, step: Step, x: PeerId)
    ensures var v := Do(limits, s, step);
      if x in s.conns then
        x in v.conns
        && v.conns[x] == s.conns[x].(main := MainAfter(limits, s, step, x), reader := ReaderAfter(limits, s, step, x))
      else
        x in v.conns ==> step.Arrive? && step.id == x && v.conns[x] == Conn(step.group, step.info, Asking, Unborn)
  {
    match step
    case Act(Main(id)) => MainActOnConn(limits, s, id, x);
    case Act(Reader(id)) => ReaderActOnConn(limits, s, id, x);
    case Deliver(t, to) => DeliverOnConn(limits, s, t, to, x);
    case Lock(t) => LockOnConn(limits, s, t, x);
    case _ =>
  }

  // Rooms

  function RoomAfter(s: State, step: Step, g: Group): Room {
    var room := RoomOf(s.rooms, g);
    if step.Act? && !step.task.Clock? && step.task.id in s.conns && s.conns[step.task.id].group == g then
      var id, c := step.task.id, s.conns[step.task.id];
      if step.task.Main? && c.main.Admitted? then room[id := c.info]
      else if step.task.Main? && c.main.Removing? then room - {id}
      else if step.task.Reader? && c.reader.InRooms? && c.reader.message.ClientUpdate? && id in room then
        room[id := c.reader.message.info]
      else room
    else room
  }

  lemma {:induction false} RegisterOnRoom(s: State, id: PeerId, g: Group)
    requires id in s.conns
    ensures RoomOf(DoRegister(s, id).rooms, g)
         == if s.conns[id].group == g then RoomOf(s.rooms, g)[id := s.conns[id].info] else RoomOf(s.rooms, g)
  {
  }

  lemma {:induction false} RemoveOnRoom(s: State, id: PeerId, g: Group)
    requires id in s.conns
    ensures RoomOf(DoRemove(s, id).rooms, g)
         == if s.conns[id].group == g then RoomOf(s.rooms, g) - {id} else RoomOf(s.rooms, g)
  {
    VacatedRoom(s.rooms, g, id);
  }

  lemma {:induction false} MainActOnRoom(limits: Limits, s: State, id: PeerId, g: Group)
    ensures RoomOf(DoMainAct(limits, s, id).rooms, g) == RoomAfter(s, Act(Main(id)), g)
  {
    if id in s.conns {
      match s.conns[id].main
      case Admitted => RegisterOnRoom(s, id, g);
      case Removing => RemoveOnRoom(s, id, g);
      case _ =>
    }
  }

  lemma {:induction false} StepOnRoom(limits: Limits, s: State, step: Step, g: Group)
    ensures RoomOf(Do(limits, s, step).rooms, g) == RoomAfter(s, step, g)
  {
    match step
    case Act(Main(id)) => MainActOnRoom(limits, s, id, g);
    case Act(Reader(id)) => assert RoomOf(DoReaderAct(limits, s, id).rooms, g) == RoomAfter(s, step, g);
    case Deliver(t, to) => assert DoDeliver(s, t, to).rooms == s.rooms;
    case Lock(t) => assert DoLock(s, t).rooms == s.rooms;
    case _ =>
  }

  // The counter

  /** A task that is in the section of the counter. */
  predicate CountingTask(s: State, t: TaskId) {
    !t.Clock? && t.id in s.conns && if t.Main? then s.conns[t.id].main.Counting? else s.conns[t.id].reader.ReaderCounting?
  }

  function CountAfter(limits: Limits, s: State, step: Step, g: Group): u32 {
    var count := CountOf(s.counts, g);
    if step == Act(Clock) && s.clock.Clearing? then 0
    else if step.Act? && CountingTask(s, step.task) && s.conns[step.task.id].group == g && MayCount(limits, s, g) then count + 1
    else count
  }

  lemma {:induction false} MainActOnCount(limits: Limits, s: State, id: PeerId, g: Group)
    ensures CountOf(DoMainAct(limits, s, id).counts, g) == CountAfter(limits, s, Act(Main(id)), g)
  {
  }

  lemma {:induction false} ReaderActOnCount(limits: Limits, s: State, id: PeerId, g: Group)
    ensures CountOf(DoReaderAct(limits, s, id).counts, g) == CountAfter(limits, s, Act(Reader(id)), g)
  {
  }

  lemma {:induction false} StepOnCount(limits: Limits, s: State, step: Step, g: Group)
    ensures CountOf(Do(limits, s, step).counts, g) == CountAfter(limits, s, step, g)
  {
    match step
    case Act(Main(id)) => MainActOnCount(limits, s, id, g);
    case Act(Reader(id)) => ReaderActOnCount(limits, s, id, g);
    case Deliver(t, to) => assert DoDeliver(s, t, to).counts == s.counts;
    case Lock(t) => assert DoLock(s, t).counts == s.counts;
    case _ =>
  }

  // The locks

  function RoomsLockAfter(limits: Limits, s: State, step: Step): Option<TaskId> {
    match step
    case Lock(Main(id)) =>
      if id in s.conns && (s.conns[id].main.Asking? || s.conns[id].main.Parting?) && s.roomsLock.None? then Some(Main(id)) else s.roomsLock
    case Lock(Reader(id)) =>
      if id in s.conns && s.conns[id].reader.WantsRooms? && s.roomsLock.None? then Some(Reader(id)) else s.roomsLock
    case Act(Main(id)) =>
      if id in s.conns && (MainAfterAct(limits, s, id, s.conns[id]).Refused? || s.conns[id].main.Admitted? || s.conns[id].main.Removing?)
         && !s.conns[id].main.Refused? then None
      else s.roomsLock
    case Act(Reader(id)) => if id in s.conns && s.conns[id].reader.InRooms? then None else s.roomsLock
    case _ => s.roomsLock
  }

  function CountLockAfter(s: State, step: Step): Option<TaskId> {
    match step
    case Lock(Main(id)) =>
      if id in s.conns && s.conns[id].main.WantsCount? && s.countLock.None? then Some(Main(id)) else s.countLock
    case Lock(Reader(id)) =>
      if id in s.conns && s.conns[id].reader.ReaderWantsCount? && s.countLock.None? then Some(Reader(id)) else s.countLock
    case Lock(Clock) => if s.clock.ClockWantsCount? && s.countLock.None? then Some(Clock) else s.countLock
    case Act(t) => if CountingTask(s, t) || (t.Clock? && s.clock.Clearing?) then None else s.countLock
    case _ => s.countLock
  }

  lemma {:induction false} MainActOnLocks(limits: Limits, s: State, id: PeerId)
    ensures var v := DoMainAct(limits, s, id);
      v.roomsLock == RoomsLockAfter(limits, s, Act(Main(id))) && v.countLock == CountLockAfter(s, Act(Main(id)))
  {
  }

  lemma {:induction false} ReaderActOnLocks(limits: Limits, s: State, id: PeerId)
    ensures var v := DoReaderAct(limits, s, id);
      v.roomsLock == RoomsLockAfter(limits, s, Act(Reader(id))) && v.countLock == CountLockAfter(s, Act(Reader(id)))
  {
  }

  lemma {:induction false} LockOnLocks(limits: Limits, s: State, t: TaskId)
    ensures var v := DoLock(s, t);
      v.roomsLock == RoomsLockAfter(limits, s, Lock(t)) && v.countLock == CountLockAfter(s, Lock(t))
  {
  }

  lemma {:induction false} StepOnLocks(limits: Limits, s: State, step: Step)
    ensures var v := Do(limits, s, step);
      v.roomsLock == RoomsLockAfter(limits, s, step) && v.countLock == CountLockAfter(s, step)
  {
    match step
    case Act(Main(id)) => MainActOnLocks(limits, s, id);
    case Act(Reader(id)) => ReaderActOnLocks(limits, s, id);
    case Lock(t) => LockOnLocks(limits, s, t);
    case Deliver(t, to) => assert DoDeliver(s, t, to).roomsLock == s.roomsLock && DoDeliver(s, t, to).countLock == s.countLock;
    case _ =>
  }

  function ClockAfter(s: State, step: Step): ClockPc {
    match step
    case Lock(Clock) => if s.clock.ClockWantsCount? && s.countLock.None? then Clearing else s.clock
    case Act(Clock) => if s.clock.Clearing? then Resting else s.clock
    case Tick => if s.clock.Resting? then ClockWantsCount else s.clock
    case _ => s.clock
  }

  lemma {:induction false} StepOnClock(limits: Limits, s: State, step: Step)
    ensures Do(limits, s, step).clock == ClockAfter(s, step)
  {
    match step
    case Act(Main(id)) => assert DoMainAct(limits, s, id).clock == s.clock;
    case Act(Reader(id)) => assert DoReaderAct(limits, s, id).clock == s.clock;
    case Deliver(t, to) => assert DoDeliver(s, t, to).clock == s.clock;
    case Lock(t) => assert DoLock(s, t).clock == ClockAfter(s, step);
    case _ =>
  }

  // The log

  function Delivered(s: State, t: TaskId, to: PeerId): Log {
    if t.Clock? || t.id !in s.conns then []
    else if t.Main? then
      match s.conns[t.id].main
      case Joining(met, pending) =>
        if to in pending then [Queued(to, Join(SelfOf(s, t.id)))]
        else if pending == {} && to == t.id then [Queued(to, Hello(SelfOf(s, t.id), met))]
        else []
      case Leaving(pending) => if to in pending then [Queued(to, Left(t.id))] else []
      case _ => []
    else
      match s.conns[t.id].reader
      case Spreading(m, pending) => if to in pending then [Queued(to, Relay(SelfOf(s, t.id), m))] else []
      case Denied => if to == t.id then [Queued(to, Refusal(TOO_MANY_REQUESTS))] else []
      case _ => []
  }

  /** The happenings that a step adds to the log. */
  function Happened(limits: Limits, s: State, step: Step): (es: Log)
    ensures |es| <= 2
  {
    match step
    case Act(Main(id)) =>
      if id !in s.conns then []
      else if s.conns[id].main.Counting? && MayCount(limits, s, s.conns[id].group) then [Counted(s.conns[id].group, Main(id))]
      else if s.conns[id].main.Admitted? then [Registered(id, s.conns[id].group)]
      else if s.conns[id].main.Removing? then [Removed(id, s.conns[id].group)]
      else []
    case Act(Reader(id)) =>
      if id in s.conns && s.conns[id].reader.ReaderCounting? && MayCount(limits, s, s.conns[id].group) then
        [Counted(s.conns[id].group, Reader(id)), Heard(id, s.conns[id].group, s.conns[id].reader.message)]
      else []
    case Act(Clock) => if s.clock.Clearing? then [Cleared] else []
    case Deliver(t, to) => Delivered(s, t, to)
    case _ => []
  }

  lemma {:induction false} ReaderActOnLog(limits: Limits, s: State, id: PeerId)
    ensures DoReaderAct(limits, s, id).log == s.log + Happened(limits, s, Act(Reader(id)))
  {
    var es := Happened(limits, s, Act(Reader(id)));
    if es != [] {
      assert s.log + [es[0]] + [es[1]] == s.log + es;
    }
  }

  lemma {:induction false} StepOnLog(limits: Limits, s: State, step: Step)
    ensures Do(limits, s, step).log == s.log + Happened(limits, s, step)
  {
    match step
    case Act(Main(id)) => assert DoMainAct(limits, s, id).log == s.log + Happened(limits, s, step);
    case Act(Reader(id)) => ReaderActOnLog(limits, s, id);
    case Deliver(t, to) => assert DoDeliver(s, t, to).log == s.log + Happened(limits, s, step);
    case Lock(t) => assert DoLock(s, t).log == s.log;
    case _ =>
  }
}
