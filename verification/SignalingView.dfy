/** What a client learns from its queue, compared with the registry. */
module SignalingView {
  import opened Prelude
  import opened Model
  import opened Signaling
  import opened SignalingSteps
  import opened SignalingLocks
  import opened SignalingRegistry

  /** A client's picture of its room after one more message. */
  function Apply(view: Room, m: ServerMessage): Room {
    match m
    case Hello(_, peers) => peers
    case Join(peer) => view[peer.id := WithoutId(peer)]
    case Update(peer) => view[peer.id := WithoutId(peer)]
    case Left(id) => view - {id}
    case _ => view
  }

  /** The picture that everything queued at `a` adds up to. */
  function View(log: Log, a: PeerId): Room {
    if log == [] then map[]
    else if Last(log).Queued? && Last(log).at == a then Apply(View(Front(log), a), Last(log).message)
    else View(Front(log), a)
  }

  /** What task `t` has still to tell `a` about a change it made. */
  function Debt(s: State, t: TaskId, a: PeerId): Option<ServerMessage> {
    if t.Clock? || t.id !in s.conns then None
    else if t.Main? then
      match s.conns[t.id].main
      case Joining(met, pending) =>
        if a in pending then Some(Join(SelfOf(s, t.id))) else if a == t.id then Some(Hello(SelfOf(s, t.id), met)) else None
      case Leaving(pending) => if a in pending then Some(Left(t.id)) else None
      case _ => None
    else
      match s.conns[t.id].reader
      case Spreading(m, pending) =>
        if m.ClientUpdate? && a in pending then Some(Update(WithId(m.info, t.id))) else None
      case _ => None
  }

  /** It has made a change that it has not told everyone about. */
  predicate Owing(s: State, t: TaskId) {
    if t.Clock? || t.id !in s.conns then false
    else if t.Main? then s.conns[t.id].main.Joining? || (s.conns[t.id].main.Leaving? && s.conns[t.id].main.pending != {})
    else s.conns[t.id].reader.Spreading? && s.conns[t.id].reader.message.ClientUpdate? && s.conns[t.id].reader.pending != {}
  }

  predicate OwesIn(s: State, t: TaskId, g: Group) {
    Owing(s, t) && s.conns[t.id].group == g
  }

  ghost predicate Calm(s: State, g: Group) {
    forall t :: !OwesIn(s, t, g)
  }

  /** The step changes the room of the connection that takes it. */
  predicate ChangesRoom(s: State, step: Step) {
    && step.Act? && !step.task.Clock? && step.task.id in s.conns
    && if step.task.Main? then s.conns[step.task.id].main.Admitted? || s.conns[step.task.id].main.Removing?
       else s.conns[step.task.id].reader.InRooms? && s.conns[step.task.id].reader.message.ClientUpdate?
            && step.task.id in RoomOf(s.rooms, s.conns[step.task.id].group)
  }

  /** Connects, updates and disconnects of group `g` happen one after the other: none takes effect while another is being told, and none is broken off. */
  ghost predicate InTurn(s: State, step: Step, g: Group) {
    && (ChangesRoom(s, step) && s.conns[step.task.id].group == g ==> Calm(s, g))
    && (step.Abort? ==> !OwesIn(s, Reader(step.id), g))
  }

  ghost predicate OneByOne(limits: Limits, steps: seq<Step>, g: Group) {
    steps == [] ||
    (&& OneByOne(limits, steps[..|steps| - 1], g)
     && InTurn(Reach(limits, steps[..|steps| - 1]), steps[|steps| - 1], g))
  }

  // The invariant

  function Pay(view: Room, debt: Option<ServerMessage>): Room {
    if debt.Some? then Apply(view, debt.value) else view
  }

  /** Once `t` has told `a`, the picture of `a` is right. */
  ghost predicate RightOncePaid(s: State, t: TaskId, g: Group, a: PeerId) {
    a in RoomOf(s.rooms, g) ==> Pay(View(s.log, a), Debt(s, t, a)) == RoomOf(s.rooms, g) - {a}
  }

  ghost predicate Right(s: State, g: Group, a: PeerId) {
    a in RoomOf(s.rooms, g) ==> View(s.log, a) == RoomOf(s.rooms, g) - {a}
  }

  ghost predicate ViewsAgree(s: State, g: Group) {
    && (forall t, u :: OwesIn(s, t, g) && OwesIn(s, u, g) ==> t == u)
    && (forall t, a :: OwesIn(s, t, g) ==> RightOncePaid(s, t, g, a))
    && (Calm(s, g) ==> forall a :: Right(s, g, a))
  }

  /** What is told stays within the group, and a newcomer announces itself to others only. */
  ghost predicate DebtsStayInside(s: State, t: TaskId) {
    && (forall a :: Debt(s, t, a).Some? ==> a in s.conns && s.conns[a].group == s.conns[t.id].group)
    && (t.Main? && t.id in s.conns && s.conns[t.id].main.Joining? ==> t.id !in s.conns[t.id].main.pending)
  }

  lemma {:induction false} StepKeepsDebtInside(limits: Limits, s: State, step: Step, t: TaskId, a: PeerId)
    requires DebtsStayInside(s, t) && RoomsAgree(limits, s) && !t.Clock?
    requires Debt(Do(limits, s, step), t, a).Some?
    ensures t.id in s.conns && a in s.conns && s.conns[a].group == s.conns[t.id].group
  {
    StepOnConn(limits, s, step, t.id);
    assert PresenceAgrees(s, s.conns[t.id].group, a);
    assert Debt(s, t, a).Some? || (step == Act(t) && (a == t.id || a in RoomOf(s.rooms, s.conns[t.id].group)));
  }

  lemma {:induction false} StepKeepsDebtsInside(limits: Limits, s: State, step: Step, t: TaskId)
    requires DebtsStayInside(s, t) && RoomsAgree(limits, s)
    ensures DebtsStayInside(Do(limits, s, step), t)
  {
    var v := Do(limits, s, step);
    if !t.Clock? {
      StepOnConn(limits, s, step, t.id);
      forall a | Debt(v, t, a).Some? ensures a in v.conns && v.conns[a].group == v.conns[t.id].group {
        StepKeepsDebtInside(limits, s, step, t, a);
        StepOnConn(limits, s, step, a);
      }
      if t.id in s.conns {
        assert PresenceAgrees(s, s.conns[t.id].group, t.id);
      }
    }
  }

  lemma {:induction false} ViewGrows(limits: Limits, s: State, step: Step, a: PeerId)
    ensures var v, es := Do(limits, s, step), Happened(limits, s, step);
      View(v.log, a) ==
        if |es| == 1 && es[0].Queued? && es[0].at == a then Apply(View(s.log, a), es[0].message) else View(s.log, a)
  {
    var es := Happened(limits, s, step);
    StepOnLog(limits, s, step);
    if es == [] {
      assert s.log + es == s.log;
    } else if |es| == 1 {
      assert s.log + es == s.log + [es[0]];
      Snoc(s.log, es[0]);
    } else {
      assert s.log + es == s.log + [es[0]] + [es[1]];
      Snoc(s.log, es[0]);
      Snoc(s.log + [es[0]], es[1]);
    }
  }

  // Debts

  /** A task whose debts a step may change: the one that acts or sends, or a reader that is stopped. */
  predicate Touches(step: Step, t: TaskId) {
    || ((step.Act? || step.Deliver?) && step.task == t)
    || (step.Abort? && t == Reader(step.id))
  }

  lemma {:induction false} UntouchedDebts(limits: Limits, s: State, step: Step, t: TaskId, a: PeerId)
    requires !Touches(step, t) && Locked(s)
    ensures var v := Do(limits, s, step);
      && Debt(v, t, a) == Debt(s, t, a) && (Owing(v, t) <==> Owing(s, t))
      && forall g :: OwesIn(v, t, g) <==> OwesIn(s, t, g)
  {
    if !t.Clock? {
      assert ReaderFollows(s, t.id);
      StepOnConn(limits, s, step, t.id);
    }
  }

  predicate ChangesNoPicture(m: ServerMessage) {
    m.Offer? || m.Answer? || m.Refusal?
  }

  /** What a send leaves owed: the debt it paid is gone, all others remain. */
  ghost predicate PaidBySend(limits: Limits, s: State, t: TaskId, to: PeerId, a: PeerId) {
    var es, now := Happened(limits, s, Deliver(t, to)), Debt(Do(limits, s, Deliver(t, to)), t, a);
    if |es| == 1 && es[0].Queued? && es[0].at == a then
      now.None? && (Debt(s, t, a) == Some(es[0].message) || (Debt(s, t, a).None? && ChangesNoPicture(es[0].message)))
    else now == Debt(s, t, a)
  }

  lemma {:induction false} MainPaysBySend(limits: Limits, s: State, id: PeerId, to: PeerId, a: PeerId)
    requires DebtsStayInside(s, Main(id)) && id in s.conns
    ensures PaidBySend(limits, s, Main(id), to, a)
  {
    StepOnConn(limits, s, Deliver(Main(id), to), id);
  }

  lemma {:induction false} ReaderPaysBySend(limits: Limits, s: State, id: PeerId, to: PeerId, a: PeerId)
    requires id in s.conns
    ensures PaidBySend(limits, s, Reader(id), to, a)
  {
    StepOnConn(limits, s, Deliver(Reader(id), to), id);
  }

  /** A send either settles a debt, or changes no picture at all. */
  lemma {:induction false} SendSettles(limits: Limits, s: State, t: TaskId, to: PeerId, a: PeerId)
    requires DebtsStayInside(s, t)
    ensures var v := Do(limits, s, Deliver(t, to));
      && Pay(View(v.log, a), Debt(v, t, a)) == Pay(View(s.log, a), Debt(s, t, a))
      && (Debt(s, t, a).None? ==> View(v.log, a) == View(s.log, a))
  {
    if !t.Clock? && t.id in s.conns {
      if t.Main? {
        MainPaysBySend(limits, s, t.id, to, a);
      } else {
        ReaderPaysBySend(limits, s, t.id, to, a);
      }
      ViewGrows(limits, s, Deliver(t, to), a);
    }
  }

  lemma {:induction false} SendsOweLess(limits: Limits, s: State, t: TaskId, to: PeerId)
    ensures var v := Do(limits, s, Deliver(t, to));
      && (Owing(v, t) ==> Owing(s, t) && v.conns[t.id].group == s.conns[t.id].group)
      && (!Owing(v, t) ==> forall a :: Debt(v, t, a).None?)
  {
    if !t.Clock? {
      StepOnConn(limits, s, Deliver(t, to), t.id);
      assert forall pending: set<PeerId> :: pending == {} ==> pending - {to} == pending;
    }
  }

  /** An action that changes no room creates no debt. */
  lemma {:induction false} ActsOweNothing(limits: Limits, s: State, t: TaskId, a: PeerId)
    requires !ChangesRoom(s, Act(t))
    ensures var v := Do(limits, s, Act(t));
      Debt(v, t, a) == Debt(s, t, a) && (Owing(v, t) <==> Owing(s, t)) && forall g :: OwesIn(v, t, g) <==> OwesIn(s, t, g)
  {
    if !t.Clock? {
      StepOnConn(limits, s, Act(t), t.id);
    }
  }

  lemma {:induction false} OwedAfterRegister(room: Room, b: PeerId, info: ClientInfoWithoutId, a: PeerId, view: Room)
    requires b !in room && (a in room ==> view == room - {a})
    ensures a in room ==> Apply(view, Join(WithId(info, b))) == room[b := info] - {a}
    ensures Apply(view, Hello(WithId(info, b), room)) == room[b := info] - {b}
  {
    assert WithoutId(WithId(info, b)) == info;
  }

  lemma {:induction false} OwedAfterUpdate(room: Room, b: PeerId, info: ClientInfoWithoutId, a: PeerId, view: Room)
    requires b in room && a in room && view == room - {a}
    ensures a != b ==> Apply(view, Update(WithId(info, b))) == room[b := info] - {a}
    ensures a == b ==> view == room[b := info] - {a}
  {
    assert WithoutId(WithId(info, b)) == info;
  }

  lemma {:induction false} MainChangeIsOwed(limits: Limits, s: State, id: PeerId, a: PeerId)
    requires ChangesRoom(s, Act(Main(id))) && RoomsAgree(limits, s) && Right(s, s.conns[id].group, a)
    ensures var v, g, t := Do(limits, s, Act(Main(id))), s.conns[id].group, Main(id);
      RightOncePaid(v, t, g, a) && (!Owing(v, t) ==> Right(v, g, a))
  {
    var c, room := s.conns[id], RoomOf(s.rooms, s.conns[id].group);
    StepOnConn(limits, s, Act(Main(id)), id);
    StepOnRoom(limits, s, Act(Main(id)), c.group);
    ViewGrows(limits, s, Act(Main(id)), a);
    if c.main.Admitted? {
      assert PresenceAgrees(s, c.group, id);
      OwedAfterRegister(room, id, c.info, a, View(s.log, a));
    } else {
      assert a in room - {id} ==> room - {a} - {id} == room - {id} - {a};
    }
  }

  lemma {:induction false} ReaderChangeIsOwed(limits: Limits, s: State, id: PeerId, a: PeerId)
    requires ChangesRoom(s, Act(Reader(id))) && RoomsAgree(limits, s) && Right(s, s.conns[id].group, a)
    ensures var v, g, t := Do(limits, s, Act(Reader(id))), s.conns[id].group, Reader(id);
      RightOncePaid(v, t, g, a) && (!Owing(v, t) ==> Right(v, g, a))
  {
    var c, room := s.conns[id], RoomOf(s.rooms, s.conns[id].group);
    StepOnConn(limits, s, Act(Reader(id)), id);
    StepOnRoom(limits, s, Act(Reader(id)), c.group);
    ViewGrows(limits, s, Act(Reader(id)), a);
    if a in room {
      OwedAfterUpdate(room, id, c.reader.message.info, a, View(s.log, a));
    }
  }

  /** After a change in a calm group, everyone in the room is owed just what makes its picture right. */
  lemma {:induction false} ChangeIsOwed(limits: Limits, s: State, t: TaskId, a: PeerId)
    requires ChangesRoom(s, Act(t)) && RoomsAgree(limits, s) && Right(s, s.conns[t.id].group, a)
    ensures var v, g := Do(limits, s, Act(t)), s.conns[t.id].group;
      RightOncePaid(v, t, g, a) && (!Owing(v, t) ==> Right(v, g, a))
  {
    if t.Main? {
      MainChangeIsOwed(limits, s, t.id, a);
    } else {
      ReaderChangeIsOwed(limits, s, t.id, a);
    }
  }

  // Steps

  /** A step that neither changes the room of `g` nor sends leaves all pictures as they are. */
  lemma {:induction false} OtherStepsKeepViews(limits: Limits, s: State, step: Step, g: Group)
    requires Locked(s) && ViewsAgree(s, g) && InTurn(s, step, g) && !step.Deliver?
    requires ChangesRoom(s, step) ==> s.conns[step.task.id].group != g
    ensures ViewsAgree(Do(limits, s, step), g)
  {
    var v := Do(limits, s, step);
    StepOnRoom(limits, s, step, g);
    forall t ensures OwesIn(v, t, g) <==> OwesIn(s, t, g) {
      OtherStepOnDebt(limits, s, step, g, t, "");
    }
    forall t, a | OwesIn(v, t, g) ensures RightOncePaid(v, t, g, a) {
      OtherStepOnDebt(limits, s, step, g, t, a);
      assert RightOncePaid(s, t, g, a);
      ViewGrows(limits, s, step, a);
    }
    if Calm(v, g) {
      assert forall t :: !OwesIn(s, t, g) by {
        forall t ensures !OwesIn(s, t, g) {
          assert !OwesIn(v, t, g);
        }
      }
      forall a ensures Right(v, g, a) {
        assert Right(s, g, a);
        ViewGrows(limits, s, step, a);
      }
    }
  }

  lemma {:induction false} OtherStepOnDebt(limits: Limits, s: State, step: Step, g: Group, t: TaskId, a: PeerId)
    requires Locked(s) && InTurn(s, step, g) && !step.Deliver?
    requires ChangesRoom(s, step) ==> s.conns[step.task.id].group != g
    ensures var v := Do(limits, s, step);
      (OwesIn(v, t, g) <==> OwesIn(s, t, g)) && (OwesIn(s, t, g) ==> Debt(v, t, a) == Debt(s, t, a))
  {
    if !Touches(step, t) {
      UntouchedDebts(limits, s, step, t, a);
    } else if step.Act? && !ChangesRoom(s, step) {
      ActsOweNothing(limits, s, t, a);
    } else if !t.Clock? {
      StepOnConn(limits, s, step, t.id);
    }
  }

  lemma {:induction false} ChangeKeepsViews(limits: Limits, s: State, t: TaskId, g: Group)
    requires Locked(s) && ViewsAgree(s, g) && RoomsAgree(limits, s) && InTurn(s, Act(t), g)
    requires ChangesRoom(s, Act(t)) && s.conns[t.id].group == g
    ensures ViewsAgree(Do(limits, s, Act(t)), g)
  {
    var v := Do(limits, s, Act(t));
    StepOnConn(limits, s, Act(t), t.id);
    forall u | u != t ensures !OwesIn(v, u, g) {
      UntouchedDebts(limits, s, Act(t), u, "");
      assert !OwesIn(s, u, g);
    }
    forall u, a | OwesIn(v, u, g) ensures RightOncePaid(v, u, g, a) {
      assert Right(s, g, a);
      ChangeIsOwed(limits, s, t, a);
    }
    if Calm(v, g) {
      assert !OwesIn(v, t, g);
      forall a ensures Right(v, g, a) {
        assert Right(s, g, a);
        ChangeIsOwed(limits, s, t, a);
      }
    }
  }

  lemma {:induction false} SendKeepsViews(limits: Limits, s: State, t: TaskId, to: PeerId, g: Group)
    requires Locked(s) && ViewsAgree(s, g) && DebtsStayInside(s, t) && RoomsAgree(limits, s)
    ensures ViewsAgree(Do(limits, s, Deliver(t, to)), g)
  {
    var v, step := Do(limits, s, Deliver(t, to)), Deliver(t, to);
    SendsOweLess(limits, s, t, to);
    forall u ensures OwesIn(v, u, g) ==> OwesIn(s, u, g) {
      if u != t {
        UntouchedDebts(limits, s, step, u, "");
      }
    }
    forall u, a | OwesIn(v, u, g) ensures RightOncePaid(v, u, g, a) {
      assert OwesIn(s, u, g);
      SendOnPicture(limits, s, t, to, g, u, a);
    }
    if Calm(v, g) {
      forall a ensures Right(v, g, a) {
        SendOnLastPicture(limits, s, t, to, g, a);
      }
    }
  }

  lemma {:induction false} SendOnPicture(limits: Limits, s: State, t: TaskId, to: PeerId, g: Group, u: TaskId, a: PeerId)
    requires Locked(s) && ViewsAgree(s, g) && DebtsStayInside(s, t) && RoomsAgree(limits, s) && OwesIn(s, u, g)
    ensures RightOncePaid(Do(limits, s, Deliver(t, to)), u, g, a)
  {
    StepOnRoom(limits, s, Deliver(t, to), g);
    SendSettles(limits, s, t, to, a);
    assert RightOncePaid(s, u, g, a);
    if u != t {
      UntouchedDebts(limits, s, Deliver(t, to), u, a);
      assert !OwesIn(s, t, g);
      if a in RoomOf(s.rooms, g) {
        NotToldFromOutside(limits, s, t, g, a);
      }
    }
  }

  /** Who owes nothing in `g` owes nothing to anyone in its room. */
  lemma {:induction false} NotToldFromOutside(limits: Limits, s: State, t: TaskId, g: Group, a: PeerId)
    requires DebtsStayInside(s, t) && RoomsAgree(limits, s) && !OwesIn(s, t, g) && a in RoomOf(s.rooms, g)
    ensures Debt(s, t, a).None?
  {
    assert PresenceAgrees(s, g, a);
  }

  lemma {:induction false} SendOnLastPicture(limits: Limits, s: State, t: TaskId, to: PeerId, g: Group, a: PeerId)
    requires Locked(s) && ViewsAgree(s, g) && DebtsStayInside(s, t) && RoomsAgree(limits, s)
    requires Calm(Do(limits, s, Deliver(t, to)), g)
    ensures Right(Do(limits, s, Deliver(t, to)), g, a)
  {
    StepOnRoom(limits, s, Deliver(t, to), g);
    SendSettles(limits, s, t, to, a);
    if OwesIn(s, t, g) {
      assert RightOncePaid(s, t, g, a);
      LastSend(limits, s, t, to, g);
    } else {
      StillCalm(limits, s, t, to, g);
      assert Right(s, g, a);
      if a in RoomOf(s.rooms, g) {
        NotToldFromOutside(limits, s, t, g, a);
      }
    }
  }

  lemma {:induction false} LastSend(limits: Limits, s: State, t: TaskId, to: PeerId, g: Group)
    requires OwesIn(s, t, g) && Calm(Do(limits, s, Deliver(t, to)), g)
    ensures forall a :: Debt(Do(limits, s, Deliver(t, to)), t, a).None?
  {
    SendsOweLess(limits, s, t, to);
    StepOnConn(limits, s, Deliver(t, to), t.id);
    assert !OwesIn(Do(limits, s, Deliver(t, to)), t, g);
  }

  lemma {:induction false} StillCalm(limits: Limits, s: State, t: TaskId, to: PeerId, g: Group)
    requires Locked(s) && !OwesIn(s, t, g) && Calm(Do(limits, s, Deliver(t, to)), g)
    ensures Calm(s, g)
  {
    forall u ensures !OwesIn(s, u, g) {
      assert !OwesIn(Do(limits, s, Deliver(t, to)), u, g);
      if u != t {
        UntouchedDebts(limits, s, Deliver(t, to), u, "");
      }
    }
  }

  lemma {:induction false} StepKeepsViews(limits: Limits, s: State, step: Step, g: Group)
    requires Locked(s) && ViewsAgree(s, g) && RoomsAgree(limits, s) && InTurn(s, step, g) && (forall t :: DebtsStayInside(s, t))
    ensures ViewsAgree(Do(limits, s, step), g)
  {
    if step.Deliver? {
      SendKeepsViews(limits, s, step.task, step.to, g);
    } else if ChangesRoom(s, step) && s.conns[step.task.id].group == g {
      ChangeKeepsViews(limits, s, step.task, g);
    } else {
      OtherStepsKeepViews(limits, s, step, g);
    }
  }

  lemma {:induction false} DebtsInEveryRun(limits: Limits, steps: seq<Step>, t: TaskId)
    ensures DebtsStayInside(Reach(limits, steps), t)
  {
    if steps != [] {
      var before, step := steps[..|steps| - 1], steps[|steps| - 1];
      DebtsInEveryRun(limits, before, t);
      RegistryIsConserved(limits, before);
      StepKeepsDebtsInside(limits, Reach(limits, before), step, t);
    }
  }

  lemma {:induction false} ViewsInEveryRun(limits: Limits, steps: seq<Step>, g: Group)
    requires OneByOne(limits, steps, g)
    ensures ViewsAgree(Reach(limits, steps), g)
  {
    if steps != [] {
      var before, step := steps[..|steps| - 1], steps[|steps| - 1];
      ViewsInEveryRun(limits, before, g);
      RegistryIsConserved(limits, before);
      forall t ensures DebtsStayInside(Reach(limits, before), t) {
        DebtsInEveryRun(limits, before, t);
      }
      StepKeepsViews(limits, Reach(limits, before), step, g);
    }
  }

  /**
   If connects, updates and disconnects of a group take effect one after the
   other, then whenever all has been told, what each client gets from its queue
   is exactly its group in the registry, itself left out, with current
   information; and while a change is being told, the message still to come
   makes it so.
   */
  lemma {:induction false} ViewsAreRight(limits: Limits, steps: seq<Step>, g: Group, a: PeerId)
    requires OneByOne(limits, steps, g) && a in RoomOf(Reach(limits, steps).rooms, g)
    ensures var s := Reach(limits, steps);
      && (Calm(s, g) ==> View(s.log, a) == RoomOf(s.rooms, g) - {a})
      && (forall t :: OwesIn(s, t, g) ==> Pay(View(s.log, a), Debt(s, t, a)) == RoomOf(s.rooms, g) - {a})
  {
    var s := Reach(limits, steps);
    ViewsInEveryRun(limits, steps, g);
    assert Calm(s, g) ==> Right(s, g, a);
    forall t | OwesIn(s, t, g) ensures Pay(View(s.log, a), Debt(s, t, a)) == RoomOf(s.rooms, g) - {a} {
      assert RightOncePaid(s, t, g, a);
    }
  }
}
