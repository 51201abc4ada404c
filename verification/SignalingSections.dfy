/** The steps of the server under its locks are the sections of the program, and what a refused connect leaves behind. */
module SignalingSections {
  import opened Prelude
  import opened Model
  import opened Signaling
  import opened SignalingSteps
  import opened SignalingLocks
  import opened SignalingRegistry
  import opened SignalingPeers

  /** A connect that has got the rooms goes through its section without waiting: check, take the counter, count, register. */
  function Undisturbed(limits: Limits, s: State, id: PeerId): State {
    Do(limits, Do(limits, Do(limits, Do(limits, s, Act(Main(id))), Lock(Main(id))), Act(Main(id))), Act(Main(id)))
  }

  lemma {:induction false} ChecksAsProgram(limits: Limits, s: State, id: PeerId)
    requires id in s.conns && s.conns[id].main.Checking? && s.countLock.None?
    ensures var v, c := Do(limits, Do(limits, s, Act(Main(id))), Lock(Main(id))), s.conns[id];
      && id in v.conns && v.rooms == Opened(s.rooms, c.group) && v.counts == s.counts
      && v.conns[id] == c.(main := if |RoomOf(s.rooms, c.group)| < limits.maxConnections then Counting else Refused)
  {
  }

  lemma {:induction false} CountsAsProgram(limits: Limits, s: State, id: PeerId)
    requires id in s.conns && s.conns[id].main.Counting?
    ensures var v, c, g := Do(limits, s, Act(Main(id))), s.conns[id], s.conns[id].group;
      && id in v.conns && v.rooms == s.rooms && CountOf(v.counts, g) == CountOf(s.counts, g) + (if MayCount(limits, s, g) then 1 else 0)
      && v.conns[id] == c.(main := if MayCount(limits, s, g) then Admitted else Refused)
  {
  }

  lemma {:induction false} OpenedIsTheSame(rooms: Rooms, g: Group, id: PeerId, info: ClientInfoWithoutId)
    ensures RoomOf(Opened(rooms, g), g) == RoomOf(rooms, g)
    ensures Entered(Opened(rooms, g), g, id, info) == Entered(rooms, g, id, info)
  {
  }

  lemma {:induction false} RegistersAsProgram(limits: Limits, s: State, id: PeerId)
    requires id in s.conns && s.conns[id].main.Admitted?
    ensures var v, c := Do(limits, s, Act(Main(id))), s.conns[id]; var room := RoomOf(s.rooms, c.group);
      && id in v.conns && v.rooms == Entered(s.rooms, c.group, id, c.info) && v.counts == s.counts
      && v.conns[id].main == Joining(room, room.Keys)
  {
  }

  lemma {:induction false} RefusedStays(limits: Limits, s: State, id: PeerId)
    requires id in s.conns && s.conns[id].main.Refused?
    ensures Do(limits, s, Act(Main(id))) == s && Do(limits, s, Lock(Main(id))) == s
  {
  }

  /**
   An undisturbed connect comes to what the program's section returns: the
   peers it meets and the rooms, and one request more if it has found room and
   the rate allowed it.
   */
  lemma {:induction false} ConnectIsTheSection(limits: Limits, s: State, id: PeerId)
    requires id in s.conns && s.conns[id].main.Checking? && s.countLock.None?
    ensures var v, c := Undisturbed(limits, s, id), s.conns[id];
      var a := Admit(limits, s.rooms, s.counts, c.group, id, c.info);
      && id in v.conns && v.rooms == a.rooms
      && v.conns[id].main == (if a.peers.Some? then Joining(a.peers.value, a.peers.value.Keys) else Refused)
      && CountOf(v.counts, c.group) == CountOf(s.counts, c.group) + (if a.peers.Some? then 1 else 0)
  {
    var c := s.conns[id];
    var checked := Do(limits, Do(limits, s, Act(Main(id))), Lock(Main(id)));
    ChecksAsProgram(limits, s, id);
    OpenedIsTheSame(s.rooms, c.group, id, c.info);
    if checked.conns[id].main.Counting? {
      var counted := Do(limits, checked, Act(Main(id)));
      CountsAsProgram(limits, checked, id);
      if counted.conns[id].main.Admitted? {
        RegistersAsProgram(limits, counted, id);
      } else {
        RefusedStays(limits, counted, id);
      }
    } else {
      RefusedStays(limits, checked, id);
    }
  }

  /** A cleanup comes to what the program's section returns: the rooms without the peer, and who remains to be told. */
  lemma {:induction false} CleanupIsTheSection(limits: Limits, s: State, id: PeerId)
    requires id in s.conns && s.conns[id].main.Removing?
    ensures var v, g := Do(limits, s, Act(Main(id))), s.conns[id].group;
      && v.rooms == Vacated(s.rooms, g, id) && v.counts == s.counts
      && id in v.conns && v.conns[id].main == Leaving(RoomOf(v.rooms, g).Keys)
  {
  }

  /** An update comes to what the program's section returns: one entry changed, and the others of the room to be told. */
  lemma {:induction false} UpdateIsTheSection(limits: Limits, s: State, id: PeerId, m: ClientMessage)
    requires id in s.conns && s.conns[id].reader == InRooms(m) && m.ClientUpdate?
    ensures var v, g := Do(limits, s, Act(Reader(id))), s.conns[id].group;
      && (forall h :: RoomOf(v.rooms, h).Keys == RoomOf(s.rooms, h).Keys)
      && (forall h, x :: x in RoomOf(v.rooms, h) ==>
           RoomOf(v.rooms, h)[x] == if h == g && x == id then m.info else RoomOf(s.rooms, h)[x])
      && id in v.conns && v.conns[id].reader.Spreading? && v.conns[id].reader.message == m
      && var others := v.conns[id].reader.pending;
        if id in RoomOf(s.rooms, g) then others + {id} == RoomOf(s.rooms, g).Keys && id !in others else others == {}
  {
  }

  /** The hourly clear, undisturbed: every counter starts again. */
  lemma {:induction false} ClearIsTheSection(limits: Limits, s: State)
    requires s.clock.Resting? && s.countLock.None?
    ensures var v := Do(limits, Do(limits, Do(limits, s, Tick), Lock(Clock)), Act(Clock));
      && (forall g :: CountOf(v.counts, g) == 0) && v.rooms == s.rooms && v.conns == s.conns
      && v.log == s.log + [Cleared] && v.countLock.None? && v.clock.Resting?
  {
  }

  // Refusals

  /** Who a message is about or from. */
  function Author(m: ServerMessage): Option<PeerId> {
    match m
    case Hello(client, _) => Some(client.id)
    case Join(peer) => Some(peer.id)
    case Refusal(_) => None
    case _ => Origin(m)
  }

  predicate InNameOf(h: Happening, id: PeerId) {
    h.Queued? && Author(h.message) == Some(id)
  }

  ghost predicate SilentUntilRegistered(s: State, id: PeerId) {
    Unregistered(s, id) ==> forall h :: h in s.log ==> !InNameOf(h, id)
  }

  /** Only a registered connection puts anything into a queue. */
  lemma {:induction false} OnlyRegisteredSpeak(limits: Limits, s: State, step: Step, id: PeerId, h: Happening)
    requires ReaderFollows(s, id) && h in Happened(limits, s, step) && InNameOf(h, id)
    ensures !Unregistered(s, id)
  {
  }

  lemma {:induction false} StepKeepsSilence(limits: Limits, s: State, step: Step, id: PeerId)
    requires SilentUntilRegistered(s, id) && ReaderFollows(s, id)
    ensures SilentUntilRegistered(Do(limits, s, step), id)
  {
    var v := Do(limits, s, step);
    if Unregistered(v, id) {
      StepOnConn(limits, s, step, id);
      StepOnLog(limits, s, step);
      assert Unregistered(s, id);
      forall h | h in v.log ensures !InNameOf(h, id) {
        if h !in s.log && InNameOf(h, id) {
          OnlyRegisteredSpeak(limits, s, step, id, h);
        }
      }
    }
  }

  lemma {:induction false} SilenceInEveryRun(limits: Limits, steps: seq<Step>, id: PeerId)
    ensures SilentUntilRegistered(Reach(limits, steps), id)
  {
    if steps != [] {
      var before := steps[..|steps| - 1];
      SilenceInEveryRun(limits, before, id);
      EveryRunKeepsLocks(limits, before);
      assert ReaderFollows(Reach(limits, before), id);
      StepKeepsSilence(limits, Reach(limits, before), steps[|steps| - 1], id);
    }
  }

  /**
   In every reachable state a refused connection was never registered, is in
   no room, and nothing in its name is in any queue.
   */
  lemma {:induction false} RefusalLeavesNoTrace(limits: Limits, steps: seq<Step>, id: PeerId)
    requires var s := Reach(limits, steps); id in s.conns && s.conns[id].main.Refused?
    ensures var s := Reach(limits, steps);
      && Met(s.log, id).None? && (forall g :: id !in RoomOf(s.rooms, g))
      && (forall h :: h in s.log ==> !InNameOf(h, id))
  {
    var s := Reach(limits, steps);
    PeersInEveryRun(limits, steps);
    RegistryIsConserved(limits, steps);
    SilenceInEveryRun(limits, steps, id);
    assert MetAgrees(s, id);
    forall g ensures id !in RoomOf(s.rooms, g) {
      assert PresenceAgrees(s, g, id);
    }
  }

  predicate IsEmptyRoom(rooms: Rooms, g: Group) {
    g in rooms && rooms[g] == map[]
  }

  lemma {:induction false} OpeningARoom(rooms: Rooms, g: Group)
    ensures var later := Opened(rooms, g);
      && (IsEmptyRoom(later, g) && !IsEmptyRoom(rooms, g) <==> g !in rooms)
      && (forall h :: h != g ==> (IsEmptyRoom(later, h) <==> IsEmptyRoom(rooms, h)))
  {
  }

  /**
   A refusal, at the check or at the counter, leaves the rooms as the check
   opened them: an empty room appears if and only if the group had no room.
   */
  lemma {:induction false} RefusalOpensRoom(limits: Limits, s: State, id: PeerId)
    requires id in s.conns && s.conns[id].main.Checking? && s.countLock.None?
    requires |RoomOf(s.rooms, s.conns[id].group)| >= limits.maxConnections || CountOf(s.counts, s.conns[id].group) >= limits.maxRequests
    ensures var v, g := Undisturbed(limits, s, id), s.conns[id].group;
      && id in v.conns && v.conns[id].main.Refused? && v.rooms == Opened(s.rooms, g)
      && (IsEmptyRoom(v.rooms, g) && !IsEmptyRoom(s.rooms, g) <==> g !in s.rooms)
      && (forall h :: h != g ==> (IsEmptyRoom(v.rooms, h) <==> IsEmptyRoom(s.rooms, h)))
  {
    ConnectIsTheSection(limits, s, id);
    OpeningARoom(s.rooms, s.conns[id].group);
  }

  /** A connect of group `g` is between its check, which has opened the room, and its registration or refusal. */
  predicate Opening(s: State, g: Group) {
    && s.roomsLock.Some? && s.roomsLock.value.Main? && s.roomsLock.value.id in s.conns
    && var c := s.conns[s.roomsLock.value.id]; c.group == g && (c.main.WantsCount? || c.main.Counting? || c.main.Admitted?)
  }

  /** Since the last registration in group `g`, a connection was refused that found nobody there. */
  predicate RefusedAlone(limits: Limits, steps: seq<Step>, g: Group) {
    steps != [] &&
    var before, step := steps[..|steps| - 1], steps[|steps| - 1];
    RefusedAloneAfter(limits, Reach(limits, before), RefusedAlone(limits, before, g), step, g)
  }

  predicate RefusedAloneAfter(limits: Limits, s: State, refused: bool, step: Step, g: Group) {
    if step.Act? && step.task.Main? && step.task.id in s.conns && s.conns[step.task.id].group == g then
      var c := s.conns[step.task.id];
      if (c.main.Checking? || c.main.Counting?) && MainAfterAct(limits, s, step.task.id, c).Refused? then
        refused || Members(s.log, g) == {}
      else refused && !c.main.Admitted?
    else refused
  }

  ghost predicate RoomStands(s: State, refused: bool, g: Group) {
    && (g in s.rooms <==> RoomOf(s.rooms, g) != map[] || refused || Opening(s, g))
    && (refused ==> RoomOf(s.rooms, g) == map[])
  }

  lemma {:induction false} MainActKeepsStanding(limits: Limits, s: State, refused: bool, id: PeerId, g: Group)
    requires RoomStands(s, refused, g) && Locked(s) && RoomsAgree(limits, s)
    ensures RoomStands(Do(limits, s, Act(Main(id))), RefusedAloneAfter(limits, s, refused, Act(Main(id)), g), g)
  {
    assert LockAgrees(s, Main(id)) && PresenceAgrees(s, g, id);
    assert Members(s.log, g) == RoomOf(s.rooms, g).Keys;
    NobodyInEmpty(RoomOf(s.rooms, g));
    assert id in RoomOf(s.rooms, g) ==> RoomOf(s.rooms, g) != map[];
    if id in s.conns {
      assert s.conns[id].main.Admitted? && s.conns[id].group == g ==> id in Entered(s.rooms, g, id, s.conns[id].info)[g];
      match s.conns[id].main
      case Checking => CheckOpensRoom(limits, s, id, g);
      case Counting => CountKeepsRooms(limits, s, id);
      case Admitted => RegistersAsProgram(limits, s, id);
      case Removing => RemovalClosesRoom(limits, s, id, g);
      case _ => assert Do(limits, s, Act(Main(id))) == s;
    }
  }

  lemma {:induction false} NobodyInEmpty(room: Room)
    ensures room.Keys == {} <==> room == map[]
  {
    if room.Keys == {} {
      assert forall x :: x in room ==> x in room.Keys;
    }
  }

  lemma {:induction false} CheckOpensRoom(limits: Limits, s: State, id: PeerId, g: Group)
    requires id in s.conns && s.conns[id].main.Checking?
    ensures var v := Do(limits, s, Act(Main(id)));
      && id in v.conns && v.conns[id] == s.conns[id].(main := MainAfterAct(limits, s, id, s.conns[id]))
      && RoomOf(v.rooms, g) == RoomOf(s.rooms, g) && (g in v.rooms <==> g in s.rooms || s.conns[id].group == g)
      && v.roomsLock == if v.conns[id].main.Refused? then None else s.roomsLock
  {
  }

  lemma {:induction false} CountKeepsRooms(limits: Limits, s: State, id: PeerId)
    requires id in s.conns && s.conns[id].main.Counting?
    ensures var v := Do(limits, s, Act(Main(id)));
      && id in v.conns && v.conns[id] == s.conns[id].(main := MainAfterAct(limits, s, id, s.conns[id]))
      && v.rooms == s.rooms && v.roomsLock == if v.conns[id].main.Refused? then None else s.roomsLock
  {
  }

  /** A cleanup gives up the room if it leaves nobody there, and no other. */
  lemma {:induction false} RemovalClosesRoom(limits: Limits, s: State, id: PeerId, g: Group)
    requires id in s.conns && s.conns[id].main.Removing? && (s.conns[id].group == g ==> id in RoomOf(s.rooms, g))
    ensures var v := Do(limits, s, Act(Main(id)));
      && v.roomsLock.None?
      && if s.conns[id].group == g then g in v.rooms <==> RoomOf(v.rooms, g) != map[]
         else (g in v.rooms <==> g in s.rooms) && RoomOf(v.rooms, g) == RoomOf(s.rooms, g)
  {
  }

  lemma {:induction false} OtherStepsOpenNothing(limits: Limits, s: State, step: Step, g: Group)
    requires !(step.Act? && step.task.Main?)
    ensures var v := Do(limits, s, step);
      (g in v.rooms <==> g in s.rooms) && (RoomOf(v.rooms, g) == map[] <==> RoomOf(s.rooms, g) == map[])
  {
    match step
    case Act(Reader(id)) =>
    case Deliver(t, to) => assert DoDeliver(s, t, to).rooms == s.rooms;
    case Lock(t) => assert DoLock(s, t).rooms == s.rooms;
    case _ =>
  }

  lemma {:induction false} OpeningStays(limits: Limits, s: State, step: Step, g: Group)
    requires Locked(s) && !(step.Act? && step.task.Main?)
    ensures Opening(Do(limits, s, step), g) <==> Opening(s, g)
  {
    StepOnLocks(limits, s, step);
    var lock := if s.roomsLock.Some? then s.roomsLock else RoomsLockAfter(limits, s, step);
    if lock.Some? && lock.value.Main? {
      assert LockAgrees(s, lock.value);
      StepOnConn(limits, s, step, lock.value.id);
    }
    if step.Act? {
      assert LockAgrees(s, step.task);
    }
  }

  lemma {:induction false} StandingInEveryRun(limits: Limits, steps: seq<Step>, g: Group)
    ensures RoomStands(Reach(limits, steps), RefusedAlone(limits, steps, g), g)
  {
    if steps != [] {
      var before, step := steps[..|steps| - 1], steps[|steps| - 1];
      var s, refused := Reach(limits, before), RefusedAlone(limits, before, g);
      StandingInEveryRun(limits, before, g);
      RegistryIsConserved(limits, before);
      if step.Act? && step.task.Main? {
        MainActKeepsStanding(limits, s, refused, step.task.id, g);
      } else {
        OtherStepsOpenNothing(limits, s, step, g);
        OpeningStays(limits, s, step, g);
      }
    }
  }

  /**
   In every interleaving, whenever the rooms are not locked: a group has a room
   that is empty if and only if a connection was refused that found nobody
   there, and none has been registered since. Every other room has peers in it.
   */
  lemma {:induction false} EmptyRoomIff(limits: Limits, steps: seq<Step>, g: Group)
    requires Reach(limits, steps).roomsLock.None?
    ensures IsEmptyRoom(Reach(limits, steps).rooms, g) <==> RefusedAlone(limits, steps, g)
  {
    StandingInEveryRun(limits, steps, g);
  }
}
