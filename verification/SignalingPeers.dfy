/** How two peers of a group learn of each other, in every interleaving. */
module SignalingPeers {
  import opened Prelude
  import opened Signaling
  import opened SignalingSteps
  import opened SignalingLocks
  import opened SignalingRegistry

  // What a log says

  /** The members of its group at the moment `b` was registered, if it was. */
  function Met(log: Log, b: PeerId): Option<set<PeerId>> {
    if log == [] then None
    else if Last(log).Registered? && Last(log).id == b then Some(Members(Front(log), Last(log).group))
    else Met(Front(log), b)
  }

  /** The registration of `a` lasted when `b` was registered. */
  predicate Overlaps(log: Log, a: PeerId, b: PeerId) {
    Met(log, b).Some? && a in Met(log, b).value
  }

  predicate IsJoin(h: Happening, at: PeerId, of: PeerId) {
    h.Queued? && h.at == at && h.message.Join? && h.message.peer.id == of
  }

  /** How often `a` was sent a Join for `b`. */
  function Joins(log: Log, a: PeerId, b: PeerId): nat {
    if log == [] then 0 else Joins(Front(log), a, b) + if IsJoin(Last(log), a, b) then 1 else 0
  }

  /** The greetings that `b` was sent. */
  function Hellos(log: Log, b: PeerId): (ms: seq<ServerMessage>)
    ensures forall m :: m in ms ==> m.Hello?
  {
    if log == [] then []
    else Hellos(Front(log), b) + if Last(log).Queued? && Last(log).at == b && Last(log).message.Hello? then [Last(log).message] else []
  }

  function Origin(m: ServerMessage): Option<PeerId> {
    match m
    case Update(peer) => Some(peer.id)
    case Left(id) => Some(id)
    case Offer(sdp) => Some(sdp.peer.id)
    case Answer(sdp) => Some(sdp.peer.id)
    case _ => None
  }

  /** Anything that `b` caused to be queued at a peer it met came after its Join. */
  predicate JoinedFirst(log: Log, a: PeerId, b: PeerId) {
    log == [] ||
    (&& JoinedFirst(Front(log), a, b)
     && (Last(log).Queued? && Last(log).at == a && Origin(Last(log).message) == Some(b) && Overlaps(Front(log), a, b)
         ==> Joins(Front(log), a, b) == 1))
  }

  lemma {:induction false} LogGrows(log: Log, h: Happening, a: PeerId, b: PeerId)
    ensures Met(log + [h], b) == if h.Registered? && h.id == b then Some(Members(log, h.group)) else Met(log, b)
    ensures Joins(log + [h], a, b) == Joins(log, a, b) + if IsJoin(h, a, b) then 1 else 0
    ensures Hellos(log + [h], b) == Hellos(log, b) + if h.Queued? && h.at == b && h.message.Hello? then [h.message] else []
    ensures JoinedFirst(log + [h], a, b) <==>
      (&& JoinedFirst(log, a, b)
       && (h.Queued? && h.at == a && Origin(h.message) == Some(b) && Overlaps(log, a, b) ==> Joins(log, a, b) == 1))
  {
    Snoc(log, h);
  }

  /** What matters of the happenings of one step: nothing, or one of them. */
  lemma {:induction false} LogGrowsInStep(limits: Limits, s: State, step: Step, a: PeerId, b: PeerId)
    ensures var es, log := Happened(limits, s, step), Do(limits, s, step).log;
      if |es| == 1 then log == s.log + [es[0]]
      else
        && Met(log, b) == Met(s.log, b) && Joins(log, a, b) == Joins(s.log, a, b)
        && Hellos(log, b) == Hellos(s.log, b) && (JoinedFirst(log, a, b) <==> JoinedFirst(s.log, a, b))
  {
    var es := Happened(limits, s, step);
    StepOnLog(limits, s, step);
    if es == [] {
      assert s.log + es == s.log;
    } else if |es| == 2 {
      assert s.log + es == s.log + [es[0]] + [es[1]];
      LogGrows(s.log, es[0], a, b);
      LogGrows(s.log + [es[0]], es[1], a, b);
      assert Hellos(s.log, b) + [] + [] == Hellos(s.log, b);
    } else {
      assert es == [es[0]];
    }
  }

  // Registrations

  predicate Unregistered(s: State, b: PeerId) {
    b !in s.conns || (Starting(s.conns[b].main) && !s.conns[b].main.Joining?)
  }

  predicate StillToTell(s: State, b: PeerId, a: PeerId) {
    b in s.conns && s.conns[b].main.Joining? && a in s.conns[b].main.pending
  }

  ghost predicate MetAgrees(s: State, b: PeerId) {
    && (Met(s.log, b).None? <==> Unregistered(s, b))
    && (b in s.conns && s.conns[b].main.Joining? ==>
         && Met(s.log, b) == Some(s.conns[b].main.met.Keys)
         && s.conns[b].main.pending <= s.conns[b].main.met.Keys)
  }

  predicate Registers(s: State, step: Step, b: PeerId) {
    step == Act(Main(b)) && b in s.conns && s.conns[b].main.Admitted?
  }

  lemma {:induction false} WhoRegisters(limits: Limits, s: State, step: Step, h: Happening)
    requires Happened(limits, s, step) == [h] && h.Registered?
    ensures Registers(s, step, h.id) && h.group == s.conns[h.id].group
  {
  }

  lemma {:induction false} RegistrationStep(limits: Limits, s: State, step: Step, b: PeerId)
    requires Registers(s, step, b) && RoomsAgree(limits, s)
    ensures var v, g := Do(limits, s, step), s.conns[b].group;
      && Happened(limits, s, step) == [Registered(b, g)] && b in v.conns
      && v.conns[b].main == Joining(RoomOf(s.rooms, g), RoomOf(s.rooms, g).Keys)
      && Met(v.log, b) == Some(RoomOf(s.rooms, g).Keys)
  {
    var g := s.conns[b].group;
    StepOnConn(limits, s, step, b);
    StepOnLog(limits, s, step);
    LogGrows(s.log, Registered(b, g), b, b);
    assert Members(s.log, g) == RoomOf(s.rooms, g).Keys;
  }

  lemma {:induction false} OtherStepOnMet(limits: Limits, s: State, step: Step, b: PeerId)
    requires !Registers(s, step, b)
    ensures Met(Do(limits, s, step).log, b) == Met(s.log, b)
  {
    LogGrowsInStep(limits, s, step, b, b);
    var es := Happened(limits, s, step);
    if |es| == 1 {
      LogGrows(s.log, es[0], b, b);
      if es[0].Registered? {
        assert es == [es[0]];
        WhoRegisters(limits, s, step, es[0]);
      }
    }
  }

  lemma {:induction false} OtherStep(limits: Limits, s: State, step: Step, b: PeerId)
    requires !Registers(s, step, b)
    ensures var v := Do(limits, s, step);
      && Met(v.log, b) == Met(s.log, b) && (Unregistered(v, b) <==> Unregistered(s, b))
      && (b in v.conns && v.conns[b].main.Joining? ==>
           && b in s.conns && s.conns[b].main.Joining?
           && v.conns[b].main.met == s.conns[b].main.met && v.conns[b].main.pending <= s.conns[b].main.pending)
  {
    OtherStepOnMet(limits, s, step, b);
    StepOnConn(limits, s, step, b);
  }

  lemma {:induction false} StepKeepsMet(limits: Limits, s: State, step: Step, b: PeerId)
    requires MetAgrees(s, b) && RoomsAgree(limits, s)
    ensures MetAgrees(Do(limits, s, step), b)
  {
    if Registers(s, step, b) {
      RegistrationStep(limits, s, step, b);
    } else {
      OtherStep(limits, s, step, b);
    }
  }

  /** Of two peers, only the one registered later meets the other. */
  ghost predicate MeetingAgrees(s: State, a: PeerId, b: PeerId) {
    Overlaps(s.log, a, b) ==>
      && a in s.conns && b in s.conns && s.conns[a].group == s.conns[b].group
      && Met(s.log, a).Some? && !Overlaps(s.log, b, a) && a != b
  }

  lemma {:induction false} StepKeepsMeeting(limits: Limits, s: State, step: Step, a: PeerId, b: PeerId)
    requires MetAgrees(s, a) && MetAgrees(s, b) && RoomsAgree(limits, s)
    requires MeetingAgrees(s, a, b) && MeetingAgrees(s, b, a)
    ensures MeetingAgrees(Do(limits, s, step), a, b)
  {
    StepOnConn(limits, s, step, a);
    StepOnConn(limits, s, step, b);
    if Registers(s, step, b) {
      RegistrationStep(limits, s, step, b);
      assert PresenceAgrees(s, s.conns[b].group, a) && PresenceAgrees(s, s.conns[b].group, b);
      if a != b {
        OtherStep(limits, s, step, a);
      }
    } else {
      OtherStep(limits, s, step, b);
      if Registers(s, step, a) {
        RegistrationStep(limits, s, step, a);
      } else {
        OtherStep(limits, s, step, a);
      }
    }
  }

  // Joins

  ghost predicate JoinsAgree(s: State, a: PeerId, b: PeerId) {
    && Joins(s.log, a, b) == (if Overlaps(s.log, a, b) && !StillToTell(s, b, a) then 1 else 0)
    && JoinedFirst(s.log, a, b)
  }

  lemma {:induction false} StepKeepsJoins(limits: Limits, s: State, step: Step, a: PeerId, b: PeerId)
    requires JoinsAgree(s, a, b) && MetAgrees(s, b) && ReaderFollows(s, b) && RoomsAgree(limits, s)
    ensures JoinsAgree(Do(limits, s, step), a, b)
  {
    var es := Happened(limits, s, step);
    LogGrowsInStep(limits, s, step, a, b);
    if |es| == 1 {
      LogGrows(s.log, es[0], a, b);
    }
    if Registers(s, step, b) {
      RegistrationStep(limits, s, step, b);
    } else {
      OtherStep(limits, s, step, b);
      ToldStep(limits, s, step, a, b);
      if |es| == 1 && es[0].Queued? {
        assert es == [es[0]];
        OneJoinMore(limits, s, step, a, b, es[0]);
      }
    }
  }

  lemma {:induction false} ToldStep(limits: Limits, s: State, step: Step, a: PeerId, b: PeerId)
    requires !Registers(s, step, b)
    ensures var v := Do(limits, s, step);
      StillToTell(v, b, a) <==> StillToTell(s, b, a) && step != Deliver(Main(b), a)
    ensures step == Deliver(Main(b), a) && StillToTell(s, b, a) ==> Happened(limits, s, step) == [Queued(a, Join(SelfOf(s, b)))]
  {
    StepOnConn(limits, s, step, b);
  }

  lemma {:induction false} OneJoinMore(limits: Limits, s: State, step: Step, a: PeerId, b: PeerId, h: Happening)
    requires JoinsAgree(s, a, b) && MetAgrees(s, b) && ReaderFollows(s, b)
    requires Happened(limits, s, step) == [h] && h.Queued?
    ensures IsJoin(h, a, b) <==> step == Deliver(Main(b), a) && StillToTell(s, b, a)
    ensures h.at == a && Origin(h.message) == Some(b) ==> b in s.conns && !s.conns[b].main.Joining?
  {
  }

  // Greetings

  ghost predicate HellosAgree(s: State, b: PeerId) {
    if b !in s.conns || Starting(s.conns[b].main) then Hellos(s.log, b) == []
    else
      && |Hellos(s.log, b)| == 1 && Hellos(s.log, b)[0].client.id == b
      && Met(s.log, b) == Some(Hellos(s.log, b)[0].peers.Keys)
  }

  lemma {:induction false} StepKeepsHellos(limits: Limits, s: State, step: Step, b: PeerId)
    requires HellosAgree(s, b) && MetAgrees(s, b) && RoomsAgree(limits, s)
    ensures HellosAgree(Do(limits, s, step), b)
  {
    var es := Happened(limits, s, step);
    LogGrowsInStep(limits, s, step, b, b);
    if |es| == 1 {
      LogGrows(s.log, es[0], b, b);
    }
    if Registers(s, step, b) {
      RegistrationStep(limits, s, step, b);
    } else {
      OtherStep(limits, s, step, b);
      GreetingStep(limits, s, step, b);
    }
  }

  predicate Greets(s: State, step: Step, b: PeerId) {
    step == Deliver(Main(b), b) && b in s.conns && s.conns[b].main.Joining? && s.conns[b].main.pending == {}
  }

  lemma {:induction false} GreetingStep(limits: Limits, s: State, step: Step, b: PeerId)
    ensures var v, es := Do(limits, s, step), Happened(limits, s, step);
      if Greets(s, step, b) then
        es == [Queued(b, Hello(SelfOf(s, b), s.conns[b].main.met))] && b in v.conns && !Starting(v.conns[b].main)
      else
        && (|es| == 1 && es[0].Queued? && es[0].at == b ==> !es[0].message.Hello?)
        && (b in v.conns && !Starting(v.conns[b].main) <==> b in s.conns && !Starting(s.conns[b].main))
  {
    StepOnConn(limits, s, step, b);
  }

  // Every run

  ghost predicate PeersAgree(s: State) {
    && (forall b :: MetAgrees(s, b))
    && (forall a, b :: MeetingAgrees(s, a, b))
    && (forall a, b :: JoinsAgree(s, a, b))
    && (forall b :: HellosAgree(s, b))
  }

  lemma {:induction false} PeersInEveryRun(limits: Limits, steps: seq<Step>)
    ensures PeersAgree(Reach(limits, steps))
  {
    if steps != [] {
      var before, step := steps[..|steps| - 1], steps[|steps| - 1];
      var s := Reach(limits, before);
      PeersInEveryRun(limits, before);
      RegistryIsConserved(limits, before);
      forall b ensures MetAgrees(Do(limits, s, step), b) && HellosAgree(Do(limits, s, step), b) {
        assert MetAgrees(s, b) && HellosAgree(s, b);
        StepKeepsMet(limits, s, step, b);
        StepKeepsHellos(limits, s, step, b);
      }
      forall a, b ensures MeetingAgrees(Do(limits, s, step), a, b) && JoinsAgree(Do(limits, s, step), a, b) {
        assert MetAgrees(s, a) && MetAgrees(s, b) && MeetingAgrees(s, a, b) && MeetingAgrees(s, b, a);
        assert JoinsAgree(s, a, b) && ReaderFollows(s, b);
        StepKeepsMeeting(limits, s, step, a, b);
        StepKeepsJoins(limits, s, step, a, b);
      }
    }
  }

  /** `b` has told everyone it met about itself, and was greeted. */
  predicate Introduced(s: State, b: PeerId) {
    b in s.conns && !Starting(s.conns[b].main)
  }

  /**
   In every interleaving, once both have been greeted, two peers whose
   registrations overlap learn of each other exactly once: the later one's only
   greeting lists the earlier, the earlier is sent exactly one Join for the
   later, and neither happens the other way round. Peers whose registrations
   do not overlap never learn of each other.
   */
  lemma {:induction false} EachPairMeetsOnce(limits: Limits, steps: seq<Step>, a: PeerId, b: PeerId)
    requires var s := Reach(limits, steps); Introduced(s, a) && Introduced(s, b)
    ensures var log := Reach(limits, steps).log;
      && |Hellos(log, a)| == 1 && |Hellos(log, b)| == 1
      && (Overlaps(log, a, b) ==>
           && a in Hellos(log, b)[0].peers && Joins(log, a, b) == 1
           && b !in Hellos(log, a)[0].peers && Joins(log, b, a) == 0)
      && (!Overlaps(log, a, b) && !Overlaps(log, b, a) ==>
           && a !in Hellos(log, b)[0].peers && Joins(log, a, b) == 0
           && b !in Hellos(log, a)[0].peers && Joins(log, b, a) == 0)
  {
    var s := Reach(limits, steps);
    PeersInEveryRun(limits, steps);
    assert HellosAgree(s, a) && HellosAgree(s, b);
    assert MeetingAgrees(s, a, b) && MeetingAgrees(s, b, a);
    assert JoinsAgree(s, a, b) && JoinsAgree(s, b, a);
  }

  /**
   At any time: never more than one Join or greeting, no Join without an
   overlap, and whatever a peer causes to be queued at one it met comes after
   its Join.
   */
  lemma {:induction false} NeverTwiceAndInOrder(limits: Limits, steps: seq<Step>, a: PeerId, b: PeerId)
    ensures var log := Reach(limits, steps).log;
      && Joins(log, a, b) <= 1 && |Hellos(log, b)| <= 1
      && (Joins(log, a, b) == 1 ==> Overlaps(log, a, b))
      && !(Overlaps(log, a, b) && Overlaps(log, b, a))
      && JoinedFirst(log, a, b)
  {
    var s := Reach(limits, steps);
    PeersInEveryRun(limits, steps);
    assert HellosAgree(s, b) && MeetingAgrees(s, a, b) && JoinsAgree(s, a, b);
  }

  /** The order, by positions in the log. */
  lemma {:induction false} JoinComesBefore(log: Log, a: PeerId, b: PeerId, j: nat)
    requires JoinedFirst(log, a, b) && j < |log|
    requires log[j].Queued? && log[j].at == a && Origin(log[j].message) == Some(b) && Overlaps(log[..j], a, b)
    ensures exists i :: 0 <= i < j && IsJoin(log[i], a, b)
    decreases |log|
  {
    if j == |log| - 1 {
      assert log[..j] == Front(log);
      var i := SomeJoin(Front(log), a, b);
      assert IsJoin(log[i], a, b);
    } else {
      assert Front(log)[..j] == log[..j];
      JoinComesBefore(Front(log), a, b, j);
      var i :| 0 <= i < j && IsJoin(Front(log)[i], a, b);
      assert IsJoin(log[i], a, b);
    }
  }

  lemma {:induction false} SomeJoin(log: Log, a: PeerId, b: PeerId) returns (i: nat)
    requires Joins(log, a, b) > 0
    ensures i < |log| && IsJoin(log[i], a, b)
  {
    if IsJoin(Last(log), a, b) {
      i := |log| - 1;
    } else {
      i := SomeJoin(Front(log), a, b);
    }
  }
}
