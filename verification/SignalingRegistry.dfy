/** What the registry and the request counter hold in every state that an interleaving reaches. */
module SignalingRegistry {
  import opened Prelude
  import opened Model
  import opened Signaling
  import opened SignalingSteps
  import opened SignalingLocks

  // What a log says

  function Front(log: Log): Log
    requires log != []
  {
    log[..|log| - 1]
  }

  function Last(log: Log): Happening
    requires log != []
  {
    log[|log| - 1]
  }

  lemma {:induction false} Snoc(log: Log, h: Happening)
    ensures log + [h] != [] && Front(log + [h]) == log && Last(log + [h]) == h
  {
  }

  /** The peers of a group that were registered and not removed since. */
  function Members(log: Log, g: Group): set<PeerId> {
    if log == [] then {}
    else match Last(log)
      case Registered(id, at) => if at == g then Members(Front(log), g) + {id} else Members(Front(log), g)
      case Removed(id, at) => if at == g then Members(Front(log), g) - {id} else Members(Front(log), g)
      case _ => Members(Front(log), g)
  }

  /** The requests of a group that were counted since the counter was last cleared. */
  function SinceClear(log: Log, g: Group): nat {
    if log == [] then 0
    else match Last(log)
      case Cleared => 0
      case Counted(at, _) => SinceClear(Front(log), g) + if at == g then 1 else 0
      case _ => SinceClear(Front(log), g)
  }

  function Clears(log: Log): nat {
    if log == [] then 0 else Clears(Front(log)) + if Last(log).Cleared? then 1 else 0
  }

  /** All requests of a group that were ever counted. */
  function Total(log: Log, g: Group): nat {
    if log == [] then 0 else Total(Front(log), g) + if Last(log).Counted? && Last(log).group == g then 1 else 0
  }

  /** The connects and messages of a group that were acted upon. */
  function Accepted(log: Log, g: Group): nat {
    if log == [] then 0
    else Accepted(Front(log), g) + if (Last(log).Registered? || Last(log).Heard?) && Last(log).group == g then 1 else 0
  }

  // Registry

  predicate InRoomPc(pc: MainPc) {
    pc.Joining? || pc.Serving? || pc.Parting? || pc.Removing?
  }

  /** The connection was accepted in group `g` and is not yet cleaned up. */
  predicate Present(s: State, g: Group, id: PeerId) {
    id in s.conns && s.conns[id].group == g && InRoomPc(s.conns[id].main)
  }

  predicate WellOnItsWay(pc: MainPc) {
    pc.WantsCount? || pc.Counting? || pc.Admitted?
  }

  /** Only its own action brings a connection into a room or out of it. */
  lemma {:induction false} MovesInOrder(limits: Limits, s: State, step: Step, x: PeerId)
    requires x in s.conns
    ensures var v := Do(limits, s, step);
      x in v.conns && v.conns[x].group == s.conns[x].group
      && var was, now, acts := s.conns[x].main, v.conns[x].main, step == Act(Main(x));
      && (InRoomPc(now) <==> if acts && was.Admitted? then true else if acts && was.Removing? then false else InRoomPc(was))
      && (now.Admitted? <==>
           if acts && was.Admitted? then false
           else if acts && was.Counting? then MayCount(limits, s, s.conns[x].group)
           else was.Admitted?)
  {
    StepOnConn(limits, s, step, x);
  }

  /** Past the check there is a place for it. */
  lemma {:induction false} PastTheCheck(limits: Limits, s: State, step: Step, x: PeerId)
    requires x in s.conns
    ensures var v := Do(limits, s, step);
      x in v.conns
      && var was, now, acts := s.conns[x].main, v.conns[x].main, step == Act(Main(x));
      && (WellOnItsWay(now) ==>
           WellOnItsWay(was) || (was.Checking? && |RoomOf(s.rooms, s.conns[x].group)| < limits.maxConnections))
      && (acts && was.Admitted? ==> !WellOnItsWay(now))
  {
    StepOnConn(limits, s, step, x);
  }

  // The registry agrees with the connections and with the log

  ghost predicate PresenceAgrees(s: State, g: Group, id: PeerId) {
    id in RoomOf(s.rooms, g) <==> Present(s, g, id)
  }

  lemma {:induction false} StepKeepsPresence(limits: Limits, s: State, step: Step, g: Group, id: PeerId)
    requires PresenceAgrees(s, g, id)
    ensures PresenceAgrees(Do(limits, s, step), g, id)
  {
    StepOnRoom(limits, s, step, g);
    if id in s.conns {
      MovesInOrder(limits, s, step, id);
    } else {
      StepOnConn(limits, s, step, id);
    }
  }

  lemma {:induction false} MembersAfter(log: Log, es: Log, g: Group)
    requires |es| <= 2
    ensures Members(log + es, g) ==
      if es == [] then Members(log, g)
      else if |es| == 1 then MembersWith(Members(log, g), es[0], g)
      else MembersWith(MembersWith(Members(log, g), es[0], g), es[1], g)
  {
    if es == [] {
      assert log + es == log;
    } else if |es| == 1 {
      assert log + es == log + [es[0]];
      Snoc(log, es[0]);
    } else {
      assert log + es == log + [es[0]] + [es[1]];
      Snoc(log, es[0]);
      Snoc(log + [es[0]], es[1]);
    }
  }

  function MembersWith(members: set<PeerId>, h: Happening, g: Group): set<PeerId> {
    if h.Registered? && h.group == g then members + {h.id}
    else if h.Removed? && h.group == g then members - {h.id}
    else members
  }

  lemma {:induction false} MembersFollowRoom(limits: Limits, s: State, step: Step, g: Group)
    requires Members(s.log, g) == RoomOf(s.rooms, g).Keys
    ensures var es := Happened(limits, s, step);
      RoomAfter(s, step, g).Keys ==
        if es == [] then Members(s.log, g)
        else if |es| == 1 then MembersWith(Members(s.log, g), es[0], g)
        else MembersWith(MembersWith(Members(s.log, g), es[0], g), es[1], g)
  {
  }

  lemma {:induction false} StepKeepsMembers(limits: Limits, s: State, step: Step, g: Group)
    requires Members(s.log, g) == RoomOf(s.rooms, g).Keys
    ensures var v := Do(limits, s, step); Members(v.log, g) == RoomOf(v.rooms, g).Keys
  {
    StepOnRoom(limits, s, step, g);
    StepOnLog(limits, s, step);
    MembersFollowRoom(limits, s, step, g);
    MembersAfter(s.log, Happened(limits, s, step), g);
  }

  /** No room is overfull, and a connect past the check still finds a place. */
  ghost predicate SizesAgree(limits: Limits, s: State, g: Group) {
    && |RoomOf(s.rooms, g)| <= limits.maxConnections
    && (forall id :: id in s.conns && s.conns[id].group == g && WellOnItsWay(s.conns[id].main) ==>
         |RoomOf(s.rooms, g)| < limits.maxConnections)
  }

  lemma {:induction false} SizeOfInsert(room: Room, id: PeerId, info: ClientInfoWithoutId)
    ensures |room[id := info]| == |room| + if id in room then 0 else 1
  {
    assert |room| == |room.Keys| && |room[id := info]| == |room[id := info].Keys|;
    assert room[id := info].Keys == room.Keys + {id};
  }

  lemma {:induction false} SizeOfRemove(room: Room, id: PeerId)
    ensures |room - {id}| <= |room|
  {
    assert |room| == |room.Keys| && |room - {id}| == |(room - {id}).Keys|;
    assert (room - {id}).Keys == room.Keys - {id};
  }

  lemma {:induction false} RoomSizeAfter(s: State, step: Step, g: Group)
    ensures var room, later := RoomOf(s.rooms, g), RoomAfter(s, step, g);
      |later| <= |room| || (step.Act? && step.task.Main? && step.task.id in s.conns && s.conns[step.task.id].group == g
                            && s.conns[step.task.id].main.Admitted? && |later| <= |room| + 1)
  {
    if step.Act? && !step.task.Clock? && step.task.id in s.conns {
      var room, id, c := RoomOf(s.rooms, g), step.task.id, s.conns[step.task.id];
      SizeOfInsert(room, id, c.info);
      SizeOfRemove(room, id);
      if c.reader.InRooms? && c.reader.message.ClientUpdate? {
        SizeOfInsert(room, id, c.reader.message.info);
      }
    }
  }

  lemma {:induction false} StepKeepsSizes(limits: Limits, s: State, step: Step, g: Group)
    requires SizesAgree(limits, s, g) && Locked(s)
    ensures SizesAgree(limits, Do(limits, s, step), g)
  {
    var v := Do(limits, s, step);
    StepOnRoom(limits, s, step, g);
    RoomSizeAfter(s, step, g);
    forall id | id in v.conns && v.conns[id].group == g && WellOnItsWay(v.conns[id].main)
      ensures |RoomOf(v.rooms, g)| < limits.maxConnections
    {
      StillHasPlace(limits, s, step, g, id);
    }
  }

  lemma {:induction false} StillHasPlace(limits: Limits, s: State, step: Step, g: Group, id: PeerId)
    requires SizesAgree(limits, s, g) && Locked(s)
    requires var v := Do(limits, s, step); id in v.conns && v.conns[id].group == g && WellOnItsWay(v.conns[id].main)
    ensures |RoomAfter(s, step, g)| < limits.maxConnections
  {
    RoomSizeAfter(s, step, g);
    if id in s.conns {
      MovesInOrder(limits, s, step, id);
      PastTheCheck(limits, s, step, id);
      assert LockAgrees(s, Main(id));
      if step.Act? && step.task.Main? {
        assert LockAgrees(s, step.task);
      }
    } else {
      StepOnConn(limits, s, step, id);
    }
  }

  ghost predicate RoomsAgree(limits: Limits, s: State) {
    && (forall g, id :: PresenceAgrees(s, g, id))
    && (forall g :: Members(s.log, g) == RoomOf(s.rooms, g).Keys)
    && (forall g :: SizesAgree(limits, s, g))
  }

  /**
   In every interleaving the peers stored for a group are those of its accepted
   connections that are not yet cleaned up, never more than allowed.
   */
  lemma {:induction false} RegistryIsConserved(limits: Limits, steps: seq<Step>)
    ensures Locked(Reach(limits, steps)) && RoomsAgree(limits, Reach(limits, steps))
  {
    EveryRunKeepsLocks(limits, steps);
    if steps != [] {
      var before, step := steps[..|steps| - 1], steps[|steps| - 1];
      RegistryIsConserved(limits, before);
      var s := Reach(limits, before);
      forall g, id ensures PresenceAgrees(Do(limits, s, step), g, id) {
        assert PresenceAgrees(s, g, id);
        StepKeepsPresence(limits, s, step, g, id);
      }
      forall g ensures Members(Do(limits, s, step).log, g) == RoomOf(Do(limits, s, step).rooms, g).Keys {
        StepKeepsMembers(limits, s, step, g);
      }
      forall g ensures SizesAgree(limits, Do(limits, s, step), g) {
        assert SizesAgree(limits, s, g);
        StepKeepsSizes(limits, s, step, g);
      }
    }
  }

  /** A cleanup removes one peer and leaves everything else as it is. */
  lemma {:induction false} CleanupRemovesOne(limits: Limits, steps: seq<Step>, id: PeerId)
    requires var s := Reach(limits, steps); id in s.conns && s.conns[id].main.Removing?
    ensures var s := Reach(limits, steps);
      var v, g := Do(limits, s, Act(Main(id))), s.conns[id].group;
      && id in RoomOf(s.rooms, g) && RoomOf(v.rooms, g) == RoomOf(s.rooms, g) - {id}
      && (forall other :: other != g ==> RoomOf(v.rooms, other) == RoomOf(s.rooms, other))
      && (g in v.rooms ==> v.rooms[g] != map[])
      && v.counts == s.counts && v.conns[id].main == Leaving(RoomOf(v.rooms, g).Keys)
  {
    RegistryIsConserved(limits, steps);
    assert PresenceAgrees(Reach(limits, steps), Reach(limits, steps).conns[id].group, id);
  }

  // Rate limit

  /** A connect that was counted and holds the rooms, about to be registered. */
  function Underway(s: State, g: Group): nat {
    if s.roomsLock.Some? && s.roomsLock.value.Main? && s.roomsLock.value.id in s.conns
       && s.conns[s.roomsLock.value.id].main.Admitted? && s.conns[s.roomsLock.value.id].group == g then 1 else 0
  }

  ghost predicate CountsAgree(limits: Limits, s: State, g: Group) {
    && CountOf(s.counts, g) == SinceClear(s.log, g) <= limits.maxRequests
    && Total(s.log, g) <= Clears(s.log) * limits.maxRequests + SinceClear(s.log, g)
    && Total(s.log, g) == Accepted(s.log, g) + Underway(s, g)
  }

  /** What the log says about a group's requests. */
  datatype Tally = Tally(since: nat, clears: nat, total: nat, accepted: nat)

  function TallyOf(log: Log, g: Group): Tally {
    Tally(SinceClear(log, g), Clears(log), Total(log, g), Accepted(log, g))
  }

  function TallyWith(t: Tally, h: Happening, g: Group): Tally {
    match h
    case Cleared => t.(since := 0, clears := t.clears + 1)
    case Counted(at, _) => if at == g then t.(since := t.since + 1, total := t.total + 1) else t
    case Registered(_, at) => if at == g then t.(accepted := t.accepted + 1) else t
    case Heard(_, at, _) => if at == g then t.(accepted := t.accepted + 1) else t
    case _ => t
  }

  lemma {:induction false} TallyOnce(log: Log, h: Happening, g: Group)
    ensures TallyOf(log + [h], g) == TallyWith(TallyOf(log, g), h, g)
  {
    Snoc(log, h);
  }

  lemma {:induction false} TallyAfter(log: Log, es: Log, g: Group)
    requires |es| <= 2
    ensures TallyOf(log + es, g) ==
      if es == [] then TallyOf(log, g)
      else if |es| == 1 then TallyWith(TallyOf(log, g), es[0], g)
      else TallyWith(TallyWith(TallyOf(log, g), es[0], g), es[1], g)
  {
    if es == [] {
      assert log + es == log;
    } else if |es| == 1 {
      assert log + es == log + [es[0]];
      TallyOnce(log, es[0], g);
    } else {
      assert log + es == log + [es[0]] + [es[1]];
      TallyOnce(log, es[0], g);
      TallyOnce(log + [es[0]], es[1], g);
    }
  }

  lemma {:induction false} UnderwayMeans(s: State, g: Group, x: PeerId)
    requires Locked(s) && x in s.conns && s.conns[x].main.Admitted?
    ensures s.roomsLock == Some(Main(x)) && Underway(s, g) == if s.conns[x].group == g then 1 else 0
  {
    assert LockAgrees(s, Main(x));
  }

  /** A connect is under way from the moment it is counted until it is registered. */
  lemma {:induction false} StepOnUnderway(limits: Limits, s: State, step: Step, g: Group)
    requires Locked(s)
    ensures Underway(Do(limits, s, step), g) ==
      if step.Act? && step.task.Main? && step.task.id in s.conns && s.conns[step.task.id].main.Counting?
         && MayCount(limits, s, s.conns[step.task.id].group) then if s.conns[step.task.id].group == g then 1 else 0
      else if step.Act? && step.task.Main? && step.task.id in s.conns && s.conns[step.task.id].main.Admitted? then 0
      else Underway(s, g)
  {
    StepKeepsLocks(limits, s, step);
    if s.roomsLock.Some? && s.roomsLock.value.Main? {
      assert LockAgrees(s, s.roomsLock.value);
      UnderwayStep(limits, s, step, g, s.roomsLock.value.id);
    } else {
      NothingUnderway(limits, s, step, g);
    }
  }

  lemma {:induction false} NothingUnderway(limits: Limits, s: State, step: Step, g: Group)
    requires Locked(s) && Locked(Do(limits, s, step)) && !(s.roomsLock.Some? && s.roomsLock.value.Main?)
    ensures Underway(Do(limits, s, step), g) == 0
    ensures step.Act? && step.task.Main? && step.task.id in s.conns ==> !WellOnItsWay(s.conns[step.task.id].main)
  {
    var v := Do(limits, s, step);
    if step.Act? {
      assert LockAgrees(s, step.task);
    }
    if v.roomsLock.Some? && v.roomsLock.value.Main? {
      var x := v.roomsLock.value.id;
      assert LockAgrees(s, Main(x));
      if x in s.conns {
        MovesInOrder(limits, s, step, x);
      } else {
        StepOnConn(limits, s, step, x);
      }
    }
  }

  lemma {:induction false} UnderwayStep(limits: Limits, s: State, step: Step, g: Group, x: PeerId)
    requires Locked(s) && Locked(Do(limits, s, step)) && s.roomsLock == Some(Main(x)) && x in s.conns
    ensures Underway(Do(limits, s, step), g) ==
      if step.Act? && step.task.Main? && step.task.id in s.conns && s.conns[step.task.id].main.Counting?
         && MayCount(limits, s, s.conns[step.task.id].group) then if s.conns[step.task.id].group == g then 1 else 0
      else if step.Act? && step.task.Main? && step.task.id in s.conns && s.conns[step.task.id].main.Admitted? then 0
      else Underway(s, g)
  {
    var v := Do(limits, s, step);
    MovesInOrder(limits, s, step, x);
    if step.Act? && step.task.Main? {
      assert LockAgrees(s, step.task);
    }
    if v.conns[x].main.Admitted? {
      UnderwayMeans(v, g, x);
    } else if v.roomsLock.Some? && v.roomsLock.value.Main? {
      var y := v.roomsLock.value.id;
      assert LockAgrees(v, Main(y));
      assert LockAgrees(s, Main(y));
      if y in s.conns {
        MovesInOrder(limits, s, step, y);
      } else {
        StepOnConn(limits, s, step, y);
      }
    }
  }

  lemma {:induction false} StepKeepsCounts(limits: Limits, s: State, step: Step, g: Group)
    requires CountsAgree(limits, s, g) && Locked(s)
    ensures CountsAgree(limits, Do(limits, s, step), g)
  {
    StepOnLog(limits, s, step);
    TallyStaysInStep(limits, s, step, g);
    TallyAfter(s.log, Happened(limits, s, step), g);
    StepOnCount(limits, s, step, g);
    StepOnUnderway(limits, s, step, g);
    if step.Act? && step.task.Main? && step.task.id in s.conns && WellOnItsWay(s.conns[step.task.id].main) {
      assert LockAgrees(s, step.task);
    }
  }

  function TallyAll(t: Tally, es: Log, g: Group): Tally
    requires |es| <= 2
  {
    if es == [] then t else if |es| == 1 then TallyWith(t, es[0], g) else TallyWith(TallyWith(t, es[0], g), es[1], g)
  }

  lemma {:induction false} TallyStaysInStep(limits: Limits, s: State, step: Step, g: Group)
    requires CountsAgree(limits, s, g)
    ensures var es, t := Happened(limits, s, step), TallyOf(s.log, g);
      |es| <= 2
      && var u := TallyAll(t, es, g);
      && CountAfter(limits, s, step, g) == u.since <= limits.maxRequests
      && u.total <= u.clears * limits.maxRequests + u.since
      && u.total - u.accepted == t.total - t.accepted
           + (if step.Act? && step.task.Main? && step.task.id in s.conns && s.conns[step.task.id].group == g then
                if s.conns[step.task.id].main.Counting? && MayCount(limits, s, g) then 1
                else if s.conns[step.task.id].main.Admitted? then -1 else 0
              else 0)
  {
    OneMoreClear(Clears(s.log), limits.maxRequests);
  }

  lemma {:induction false} OneMoreClear(k: nat, max: nat)
    ensures (k + 1) * max == k * max + max
  {
  }

  lemma {:induction false} CountsInEveryRun(limits: Limits, steps: seq<Step>, g: Group)
    ensures CountsAgree(limits, Reach(limits, steps), g)
  {
    if steps != [] {
      var before := steps[..|steps| - 1];
      CountsInEveryRun(limits, before, g);
      EveryRunKeepsLocks(limits, before);
      StepKeepsCounts(limits, Reach(limits, before), steps[|steps| - 1], g);
    }
  }

  /**
   In every interleaving the counter of a group is the number of its requests
   that were counted since the last clear and never exceeds the limit; every
   one of them is acted upon, but for a connect just being registered; and a
   run with k clears acts upon at most (k + 1) times the limit.
   */
  lemma {:induction false} RateIsLimited(limits: Limits, steps: seq<Step>, g: Group)
    ensures var s := Reach(limits, steps);
      && CountOf(s.counts, g) == SinceClear(s.log, g) <= limits.maxRequests
      && Accepted(s.log, g) <= Total(s.log, g) <= Accepted(s.log, g) + 1
      && Accepted(s.log, g) <= (Clears(s.log) + 1) * limits.maxRequests
  {
    CountsInEveryRun(limits, steps, g);
    var k := Clears(Reach(limits, steps).log);
    OneMoreClear(k, limits.maxRequests);
  }
}
