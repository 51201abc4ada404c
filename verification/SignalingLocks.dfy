/** The two locks of the signaling server: mutual exclusion, and no deadlock. */
module SignalingLocks {
  import opened Prelude
  import opened Signaling
  import opened SignalingSteps

  predicate MainHoldsRooms(pc: MainPc) {
    pc.Checking? || pc.WantsCount? || pc.Counting? || pc.Admitted? || pc.Removing?
  }

  predicate HoldsRooms(s: State, t: TaskId) {
    match t
    case Main(id) => id in s.conns && MainHoldsRooms(s.conns[id].main)
    case Reader(id) => id in s.conns && s.conns[id].reader.InRooms?
    case Clock => false
  }

  predicate HoldsCount(s: State, t: TaskId) {
    match t
    case Main(id) => id in s.conns && s.conns[id].main.Counting?
    case Reader(id) => id in s.conns && s.conns[id].reader.ReaderCounting?
    case Clock => s.clock.Clearing?
  }

  predicate WaitsForRooms(s: State, t: TaskId) {
    match t
    case Main(id) => id in s.conns && (s.conns[id].main.Asking? || s.conns[id].main.Parting?)
    case Reader(id) => id in s.conns && s.conns[id].reader.WantsRooms?
    case Clock => false
  }

  predicate WaitsForCount(s: State, t: TaskId) {
    match t
    case Main(id) => id in s.conns && s.conns[id].main.WantsCount?
    case Reader(id) => id in s.conns && s.conns[id].reader.ReaderWantsCount?
    case Clock => s.clock.ClockWantsCount?
  }

  /** It has a message to put into a queue, which may be full. */
  predicate WaitsOnQueue(s: State, t: TaskId) {
    match t
    case Main(id) => id in s.conns && (s.conns[id].main.Joining? || s.conns[id].main.Leaving?)
    case Reader(id) => id in s.conns && (s.conns[id].reader.Spreading? || s.conns[id].reader.Denied?)
    case Clock => false
  }

  /** Each lock is held by whoever is in a section under it, and by no other. */
  ghost predicate LockAgrees(s: State, t: TaskId) {
    && (HoldsRooms(s, t) <==> s.roomsLock == Some(t))
    && (HoldsCount(s, t) <==> s.countLock == Some(t))
  }

  /** A connection that has not greeted itself yet. */
  predicate Starting(pc: MainPc) {
    pc.Asking? || pc.Checking? || pc.WantsCount? || pc.Counting? || pc.Admitted? || pc.Refused? || pc.Joining?
  }

  /** A connection's reader is started once the connection has greeted itself. */
  ghost predicate ReaderFollows(s: State, id: PeerId) {
    id in s.conns ==> (s.conns[id].reader.Unborn? <==> Starting(s.conns[id].main))
  }

  lemma {:induction false} StepKeepsReader(limits: Limits, s: State, step: Step, id: PeerId)
    requires ReaderFollows(s, id)
    ensures ReaderFollows(Do(limits, s, step), id)
  {
    StepOnConn(limits, s, step, id);
  }

  lemma {:induction false} StepKeepsLock(limits: Limits, s: State, step: Step, t: TaskId)
    requires LockAgrees(s, t) && (step.Lock? || step.Act? ==> LockAgrees(s, step.task))
    requires !t.Clock? ==> ReaderFollows(s, t.id)
    ensures LockAgrees(Do(limits, s, step), t)
  {
    StepOnLocks(limits, s, step);
    StepOnClock(limits, s, step);
    if t.Main? {
      MainKeepsLock(limits, s, step, t.id);
    } else if t.Reader? {
      ReaderKeepsLock(limits, s, step, t.id);
    }
  }

  lemma {:induction false} MainKeepsLock(limits: Limits, s: State, step: Step, id: PeerId)
    requires LockAgrees(s, Main(id)) && (step.Lock? || step.Act? ==> LockAgrees(s, step.task))
    ensures var v := Do(limits, s, step);
      && (HoldsRooms(v, Main(id)) <==> RoomsLockAfter(limits, s, step) == Some(Main(id)))
      && (HoldsCount(v, Main(id)) <==> CountLockAfter(s, step) == Some(Main(id)))
  {
    StepOnConn(limits, s, step, id);
  }

  lemma {:induction false} ReaderKeepsLock(limits: Limits, s: State, step: Step, id: PeerId)
    requires LockAgrees(s, Reader(id)) && (step.Lock? || step.Act? ==> LockAgrees(s, step.task)) && ReaderFollows(s, id)
    ensures var v := Do(limits, s, step);
      && (HoldsRooms(v, Reader(id)) <==> RoomsLockAfter(limits, s, step) == Some(Reader(id)))
      && (HoldsCount(v, Reader(id)) <==> CountLockAfter(s, step) == Some(Reader(id)))
  {
    StepOnConn(limits, s, step, id);
  }

  ghost predicate Locked(s: State) {
    && (forall t :: LockAgrees(s, t))
    && (forall id :: ReaderFollows(s, id))
  }

  lemma {:induction false} StepKeepsLocks(limits: Limits, s: State, step: Step)
    requires Locked(s)
    ensures Locked(Do(limits, s, step))
  {
    forall t ensures LockAgrees(Do(limits, s, step), t) {
      StepKeepsLock(limits, s, step, t);
    }
    forall id ensures ReaderFollows(Do(limits, s, step), id) {
      StepKeepsReader(limits, s, step, id);
    }
  }

  lemma {:induction false} EveryRunKeepsLocks(limits: Limits, steps: seq<Step>)
    ensures Locked(Reach(limits, steps))
  {
    if steps != [] {
      EveryRunKeepsLocks(limits, steps[..|steps| - 1]);
      StepKeepsLocks(limits, Reach(limits, steps[..|steps| - 1]), steps[|steps| - 1]);
    }
  }

  /**
   In every interleaving: whenever a task waits for a lock that is taken, some
   task that holds a lock can go on at once; and a task that waits on a queue
   holds no lock.
   */
  lemma {:induction false} NoDeadlock(limits: Limits, steps: seq<Step>, t: TaskId)
    ensures var s := Reach(limits, steps);
      && ((WaitsForRooms(s, t) && s.roomsLock.Some?) || (WaitsForCount(s, t) && s.countLock.Some?) ==>
        exists holder, step :: (HoldsRooms(s, holder) || HoldsCount(s, holder)) && step in [Lock(holder), Act(holder)]
          && Do(limits, s, step) != s)
      && (WaitsOnQueue(s, t) ==> !HoldsRooms(s, t) && !HoldsCount(s, t))
      && (forall a, b :: HoldsRooms(s, a) && HoldsRooms(s, b) ==> a == b)
      && (forall a, b :: HoldsCount(s, a) && HoldsCount(s, b) ==> a == b)
  {
    var s := Reach(limits, steps);
    EveryRunKeepsLocks(limits, steps);
    assert LockAgrees(s, t);
    forall a, b | HoldsRooms(s, a) && HoldsRooms(s, b) ensures a == b {
      assert LockAgrees(s, a) && LockAgrees(s, b);
    }
    forall a, b | HoldsCount(s, a) && HoldsCount(s, b) ensures a == b {
      assert LockAgrees(s, a) && LockAgrees(s, b);
    }
    if s.countLock.Some? {
      CountHolderGoesOn(limits, s, s.countLock.value);
    } else if s.roomsLock.Some? {
      RoomsHolderGoesOn(limits, s, s.roomsLock.value);
    }
  }

  /** The holder of the counter can finish its section. */
  lemma {:induction false} CountHolderGoesOn(limits: Limits, s: State, holder: TaskId)
    requires Locked(s) && s.countLock == Some(holder)
    ensures HoldsCount(s, holder) && Do(limits, s, Act(holder)) != s
  {
    assert LockAgrees(s, holder);
    StepOnLocks(limits, s, Act(holder));
    assert Do(limits, s, Act(holder)).countLock.None?;
  }

  /** The holder of the rooms can finish its section, or get the counter if nobody holds it. */
  lemma {:induction false} RoomsHolderGoesOn(limits: Limits, s: State, holder: TaskId)
    requires Locked(s) && s.roomsLock == Some(holder) && s.countLock.None?
    ensures HoldsRooms(s, holder) && (Do(limits, s, Act(holder)) != s || Do(limits, s, Lock(holder)) != s)
  {
    assert LockAgrees(s, holder);
    StepOnLocks(limits, s, Act(holder));
    StepOnLocks(limits, s, Lock(holder));
    StepOnConn(limits, s, Act(holder), holder.id);
  }
}
