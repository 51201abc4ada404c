/**
 When a client's picture of its room is right, over every interleaving: what
 its queue says about each peer, and how the order of the queue can spoil it.
 */
module SignalingPicture {
  import opened Prelude
  import opened Model
  import opened Signaling
  import opened SignalingSteps
  import opened SignalingLocks
  import opened SignalingRegistry
  import opened SignalingPeers
  import opened SignalingView

  type Entry = Option<ClientInfoWithoutId>

  function EntryOf(room: Room, x: PeerId): Entry {
    if x in room then Some(room[x]) else None
  }

  // What a queue says about a peer

  predicate SaysJoined(h: Happening, b: PeerId, x: PeerId) {
    h.Queued? && h.at == b && (h.message.Join? || h.message.Update?) && h.message.peer.id == x
  }

  predicate SaysLeft(h: Happening, b: PeerId, x: PeerId) {
    h.Queued? && h.at == b && h.message == Left(x)
  }

  /** The queue of `b` holds a Left of `x`. */
  predicate LeftQueued(log: Log, b: PeerId, x: PeerId) {
    log != [] && (SaysLeft(Last(log), b, x) || LeftQueued(Front(log), b, x))
  }

  /** What the latest Join or Update of `x` in the queue of `b` says. */
  function Latest(log: Log, b: PeerId, x: PeerId): Entry {
    if log == [] then None
    else if SaysJoined(Last(log), b, x) then Some(WithoutId(Last(log).message.peer))
    else Latest(Front(log), b, x)
  }

  function Greeting(log: Log, b: PeerId): Room {
    var hellos := Hellos(log, b);
    if hellos == [] then map[] else hellos[|hellos| - 1].peers
  }

  /** What the queue of `b` says about `x` if its order is disregarded: a Left counts most, then the latest Join or Update, then the greeting. */
  function Says(log: Log, b: PeerId, x: PeerId): Entry {
    if LeftQueued(log, b, x) then None
    else if Latest(log, b, x).Some? then Latest(log, b, x)
    else EntryOf(Greeting(log, b), x)
  }

  /**
   The order of the queue spoils what it says about `x`, as the last message
   that bears on `x` shows: it is a Join, an Update or a greeting that lists
   `x`, after a Left of `x`; or a greeting, after a Join or Update of `x` from
   which it differs.
   */
  predicate Spoiled(log: Log, b: PeerId, x: PeerId) {
    log != [] &&
    var earlier, h := Front(log), Last(log);
    if SaysJoined(h, b, x) then LeftQueued(earlier, b, x)
    else if SaysLeft(h, b, x) then false
    else if h.Queued? && h.at == b && h.message.Hello? then
      if LeftQueued(earlier, b, x) then x in h.message.peers
      else Latest(earlier, b, x).Some? && Latest(earlier, b, x) != EntryOf(h.message.peers, x)
    else Spoiled(earlier, b, x)
  }

  /** Reading the queue in its order comes to what it says exactly about the peers that the order does not spoil. */
  lemma {:induction false} SpoiledIff(log: Log, b: PeerId, x: PeerId)
    ensures EntryOf(View(log, b), x) == Says(log, b, x) <==> !Spoiled(log, b, x)
  {
    if log != [] {
      SpoiledIff(Front(log), b, x);
      var h := Last(log);
      assert Hellos(log, b) == Hellos(Front(log), b) + if h.Queued? && h.at == b && h.message.Hello? then [h.message] else [];
    }
  }

  lemma {:induction false} QueueGrows(log: Log, h: Happening, b: PeerId, x: PeerId)
    ensures LeftQueued(log + [h], b, x) <==> SaysLeft(h, b, x) || LeftQueued(log, b, x)
    ensures Latest(log + [h], b, x) == if SaysJoined(h, b, x) then Some(WithoutId(h.message.peer)) else Latest(log, b, x)
    ensures Hellos(log + [h], b) == Hellos(log, b) + if h.Queued? && h.at == b && h.message.Hello? then [h.message] else []
  {
    Snoc(log, h);
  }

  // What is still to be told

  /** What the tasks of `x` have still to tell `b`. */
  datatype Owed = Owed(left: bool, update: Entry, join: bool)

  const NOTHING: Owed := Owed(false, None, false)

  function OwedTo(s: State, x: PeerId, b: PeerId): Owed {
    if x !in s.conns then NOTHING
    else
      var main, reader := s.conns[x].main, s.conns[x].reader;
      Owed(main.Leaving? && b in main.pending,
           if reader.Spreading? && reader.message.ClientUpdate? && b in reader.pending then Some(reader.message.info) else None,
           main.Joining? && b in main.pending)
  }

  /** Whom `b` met: as its greeting says, or will say. */
  function MetBy(s: State, b: PeerId): Room {
    if b in s.conns && s.conns[b].main.Joining? then s.conns[b].main.met else Greeting(s.log, b)
  }

  /** What `b` will have been told about `x` when nothing is owed any more. */
  function Told(s: State, b: PeerId, x: PeerId): Entry {
    var owed := OwedTo(s, x, b);
    if LeftQueued(s.log, b, x) || owed.left then None
    else if owed.update.Some? then owed.update
    else if owed.join then Some(s.conns[x].info)
    else if Latest(s.log, b, x).Some? then Latest(s.log, b, x)
    else EntryOf(MetBy(s, b), x)
  }

  /** What an update of `x` said that was broken off, by the end of its connection, before `b` was told. */
  function Withheld(limits: Limits, steps: seq<Step>, b: PeerId, x: PeerId): Entry {
    if steps == [] then None
    else
      var before, step := steps[..|steps| - 1], steps[|steps| - 1];
      WithheldAfter(Reach(limits, before), Withheld(limits, before, b, x), step, b, x)
  }

  function WithheldAfter(s: State, withheld: Entry, step: Step, b: PeerId, x: PeerId): Entry {
    if step == Abort(x) && OwedTo(s, x, b).update.Some? then OwedTo(s, x, b).update else withheld
  }

  /** What `b` would know of `x` if it were told all: what was withheld counts as told, unless a Left outdoes it. */
  function Due(s: State, withheld: Entry, b: PeerId, x: PeerId): Entry {
    if withheld.Some? && !LeftQueued(s.log, b, x) && !OwedTo(s, x, b).left then withheld else Told(s, b, x)
  }

  // One step

  /** Whether `h` says something about `x` to `b`. */
  predicate Concerns(h: Happening, b: PeerId, x: PeerId) {
    SaysJoined(h, b, x) || SaysLeft(h, b, x)
  }

  lemma {:induction false} WhoConcerns(limits: Limits, s: State, step: Step, b: PeerId, x: PeerId, h: Happening)
    requires h in Happened(limits, s, step) && Concerns(h, b, x)
    ensures x in s.conns && Happened(limits, s, step) == [h]
    ensures
      || (step == Deliver(Main(x), b) && (OwedTo(s, x, b).left || OwedTo(s, x, b).join))
      || (step == Deliver(Reader(x), b) && OwedTo(s, x, b).update.Some?)
  {
  }

  lemma {:induction false} SilenceSaysNothing(limits: Limits, s: State, step: Step, b: PeerId, x: PeerId)
    requires forall h :: h in Happened(limits, s, step) ==> !Concerns(h, b, x)
    ensures var v := Do(limits, s, step);
      (LeftQueued(v.log, b, x) <==> LeftQueued(s.log, b, x)) && Latest(v.log, b, x) == Latest(s.log, b, x)
  {
    var es := Happened(limits, s, step);
    StepOnLog(limits, s, step);
    if es == [] {
      assert s.log + es == s.log;
    } else if |es| == 1 {
      assert !Concerns(es[0], b, x);
      assert s.log + es == s.log + [es[0]];
      QueueGrows(s.log, es[0], b, x);
    } else {
      assert !Concerns(es[0], b, x) && !Concerns(es[1], b, x);
      assert s.log + es == s.log + [es[0]] + [es[1]];
      QueueGrows(s.log, es[0], b, x);
      QueueGrows(s.log + [es[0]], es[1], b, x);
    }
  }

  /** The queue says the same about `x` unless the step is a send of `x` to `b` that was owed. */
  lemma {:induction false} QueueStays(limits: Limits, s: State, step: Step, b: PeerId, x: PeerId)
    requires (step != Deliver(Main(x), b) && step != Deliver(Reader(x), b)) || OwedTo(s, x, b) == NOTHING
    ensures var v := Do(limits, s, step);
      (LeftQueued(v.log, b, x) <==> LeftQueued(s.log, b, x)) && Latest(v.log, b, x) == Latest(s.log, b, x)
  {
    forall h | h in Happened(limits, s, step) ensures !Concerns(h, b, x) {
      if Concerns(h, b, x) {
        WhoConcerns(limits, s, step, b, x, h);
      }
    }
    SilenceSaysNothing(limits, s, step, b, x);
  }

  lemma {:induction false} GreetingStays(limits: Limits, s: State, step: Step, b: PeerId)
    requires !Greets(s, step, b)
    ensures Hellos(Do(limits, s, step).log, b) == Hellos(s.log, b)
  {
    var es := Happened(limits, s, step);
    LogGrowsInStep(limits, s, step, b, b);
    GreetingStep(limits, s, step, b);
    if |es| == 1 {
      LogGrows(s.log, es[0], b, b);
      assert Hellos(s.log, b) + [] == Hellos(s.log, b);
    }
  }

  /** A greeting tells `b` whom it met. */
  lemma {:induction false} GreetingTellsMet(limits: Limits, s: State, step: Step, b: PeerId)
    requires Greets(s, step, b)
    ensures Greeting(Do(limits, s, step).log, b) == s.conns[b].main.met
  {
    GreetingStep(limits, s, step, b);
    StepOnLog(limits, s, step);
    QueueGrows(s.log, Queued(b, Hello(SelfOf(s, b), s.conns[b].main.met)), b, b);
  }

  /** Whom `b` met does not change once it is registered. */
  lemma {:induction false} MetStays(limits: Limits, s: State, step: Step, b: PeerId)
    requires !Registers(s, step, b)
    ensures MetBy(Do(limits, s, step), b) == MetBy(s, b)
  {
    StepOnConn(limits, s, step, b);
    if Greets(s, step, b) {
      GreetingTellsMet(limits, s, step, b);
    } else {
      GreetingStays(limits, s, step, b);
    }
  }

  predicate TouchesOwed(step: Step, x: PeerId, b: PeerId) {
    || step == Act(Main(x)) || step == Act(Reader(x)) || step == Abort(x)
    || step == Deliver(Main(x), b) || step == Deliver(Reader(x), b)
  }

  lemma {:induction false} OwedStays(limits: Limits, s: State, step: Step, x: PeerId, b: PeerId)
    requires !TouchesOwed(step, x, b) && ReaderFollows(s, x)
    ensures OwedTo(Do(limits, s, step), x, b) == OwedTo(s, x, b)
    ensures x in s.conns ==> x in Do(limits, s, step).conns && Do(limits, s, step).conns[x].info == s.conns[x].info
  {
    StepOnConn(limits, s, step, x);
  }

  /** The log after a send of at most one message. */
  lemma {:induction false} SendOnLog(limits: Limits, s: State, t: TaskId, b: PeerId, x: PeerId)
    ensures var v, es := Do(limits, s, Deliver(t, b)), Delivered(s, t, b);
      && |es| <= 1
      && (LeftQueued(v.log, b, x) <==> LeftQueued(s.log, b, x) || (es != [] && SaysLeft(es[0], b, x)))
      && Latest(v.log, b, x) == if es != [] && SaysJoined(es[0], b, x) then Some(WithoutId(es[0].message.peer)) else Latest(s.log, b, x)
  {
    var es := Delivered(s, t, b);
    StepOnLog(limits, s, Deliver(t, b));
    if es == [] {
      assert s.log + es == s.log;
    } else {
      assert es == [es[0]];
      QueueGrows(s.log, es[0], b, x);
    }
  }

  lemma {:induction false} MainTellsQueue(limits: Limits, s: State, b: PeerId, x: PeerId)
    ensures var v, owed := Do(limits, s, Deliver(Main(x), b)), OwedTo(s, x, b);
      && (LeftQueued(v.log, b, x) <==> LeftQueued(s.log, b, x) || owed.left)
      && Latest(v.log, b, x) == if owed.join then Some(s.conns[x].info) else Latest(s.log, b, x)
  {
    SendOnLog(limits, s, Main(x), b, x);
  }

  /** What the main task of `x` owed `b` is owed no more. */
  lemma {:induction false} MainTells(limits: Limits, s: State, b: PeerId, x: PeerId)
    requires ReaderFollows(s, x)
    ensures OwedTo(Do(limits, s, Deliver(Main(x), b)), x, b) == var owed := OwedTo(s, x, b); owed.(left := false, join := false)
    ensures x in s.conns ==> x in Do(limits, s, Deliver(Main(x), b)).conns && Do(limits, s, Deliver(Main(x), b)).conns[x].info == s.conns[x].info
  {
    StepOnConn(limits, s, Deliver(Main(x), b), x);
  }

  lemma {:induction false} ReaderTellsQueue(limits: Limits, s: State, b: PeerId, x: PeerId)
    ensures var v, owed := Do(limits, s, Deliver(Reader(x), b)), OwedTo(s, x, b);
      && (LeftQueued(v.log, b, x) <==> LeftQueued(s.log, b, x))
      && Latest(v.log, b, x) == if owed.update.Some? then owed.update else Latest(s.log, b, x)
  {
    SendOnLog(limits, s, Reader(x), b, x);
  }

  /** What the reader of `x` owed `b` is owed no more. */
  lemma {:induction false} ReaderTells(limits: Limits, s: State, b: PeerId, x: PeerId)
    ensures OwedTo(Do(limits, s, Deliver(Reader(x), b)), x, b) == var owed := OwedTo(s, x, b); owed.(update := None)
    ensures x in s.conns ==> x in Do(limits, s, Deliver(Reader(x), b)).conns && Do(limits, s, Deliver(Reader(x), b)).conns[x].info == s.conns[x].info
  {
    StepOnConn(limits, s, Deliver(Reader(x), b), x);
  }

  // Before a peer is registered

  /** Who is not registered is told nothing, and nothing is said about it. */
  ghost predicate Quiet(s: State, b: PeerId, x: PeerId) {
    && (Unregistered(s, b) ==> !LeftQueued(s.log, b, x) && Latest(s.log, b, x).None? && OwedTo(s, x, b) == NOTHING)
    && (Unregistered(s, x) ==> !LeftQueued(s.log, b, x) && Latest(s.log, b, x).None?)
  }

  /** Whom the action of `x` makes a debtor of is in its room. */
  lemma {:induction false} OwedByAct(limits: Limits, s: State, t: TaskId, x: PeerId, b: PeerId)
    requires (t == Main(x) || t == Reader(x)) && ReaderFollows(s, x)
    ensures var now := OwedTo(Do(limits, s, Act(t)), x, b);
      now == OwedTo(s, x, b) || now == OwedTo(s, x, b).(join := false, left := false, update := None)
      || (x in s.conns && b in RoomOf(s.rooms, s.conns[x].group))
  {
    StepOnConn(limits, s, Act(t), x);
  }

  lemma {:induction false} StepKeepsQuiet(limits: Limits, s: State, step: Step, b: PeerId, x: PeerId)
    requires Quiet(s, b, x) && RoomsAgree(limits, s) && ReaderFollows(s, x)
    ensures Quiet(Do(limits, s, step), b, x)
  {
    var v := Do(limits, s, step);
    if step == Deliver(Main(x), b) || step == Deliver(Reader(x), b) {
      SendKeepsQuiet(limits, s, step, b, x);
    } else {
      QueueStays(limits, s, step, b, x);
      StaysUnregistered(limits, s, step, b);
      StaysUnregistered(limits, s, step, x);
      if Unregistered(v, b) {
        NothingOwedToTheUnregistered(limits, s, step, b, x);
      }
    }
  }

  lemma {:induction false} StaysUnregistered(limits: Limits, s: State, step: Step, b: PeerId)
    ensures Unregistered(Do(limits, s, step), b) ==> Unregistered(s, b)
  {
    StepOnConn(limits, s, step, b);
  }

  lemma {:induction false} NothingOwedToTheUnregistered(limits: Limits, s: State, step: Step, b: PeerId, x: PeerId)
    requires RoomsAgree(limits, s) && ReaderFollows(s, x)
    requires Unregistered(s, b) && OwedTo(s, x, b) == NOTHING
    requires step != Deliver(Main(x), b) && step != Deliver(Reader(x), b)
    ensures OwedTo(Do(limits, s, step), x, b) == NOTHING
  {
    if step == Act(Main(x)) || step == Act(Reader(x)) {
      OwedByAct(limits, s, step.task, x, b);
      assert x in s.conns ==> PresenceAgrees(s, s.conns[x].group, b);
    } else if step == Abort(x) {
      StepOnConn(limits, s, step, x);
    } else {
      OwedStays(limits, s, step, x, b);
    }
  }

  lemma {:induction false} SendKeepsQuiet(limits: Limits, s: State, step: Step, b: PeerId, x: PeerId)
    requires Quiet(s, b, x) && ReaderFollows(s, x)
    requires step == Deliver(Main(x), b) || step == Deliver(Reader(x), b)
    ensures Quiet(Do(limits, s, step), b, x)
  {
    var v := Do(limits, s, step);
    if Unregistered(v, b) || Unregistered(v, x) {
      StepOnConn(limits, s, step, b);
      StepOnConn(limits, s, step, x);
      assert OwedTo(s, x, b) == NOTHING;
      QueueStays(limits, s, step, b, x);
    }
  }

  // The invariant

  /** The truth about `x` in the room of `g`, for `b` to know. */
  function Truth(s: State, g: Group, b: PeerId, x: PeerId): Entry {
    if x == b then None else EntryOf(RoomOf(s.rooms, g), x)
  }

  ghost predicate PictureAgrees(s: State, withheld: Entry, g: Group, b: PeerId, x: PeerId) {
    b in RoomOf(s.rooms, g) ==> Due(s, withheld, b, x) == Truth(s, g, b, x)
  }

  /** Whose update was broken off has stopped listening, and no one was to be told before it was registered. */
  ghost predicate WithheldAgrees(s: State, withheld: Entry, b: PeerId, x: PeerId) {
    withheld.Some? ==> x in s.conns && s.conns[x].reader.Over? && !Unregistered(s, b)
  }

  lemma {:induction false} StepKeepsWithheld(limits: Limits, s: State, withheld: Entry, step: Step, b: PeerId, x: PeerId)
    requires WithheldAgrees(s, withheld, b, x) && Quiet(s, b, x) && ReaderFollows(s, x)
    ensures WithheldAgrees(Do(limits, s, step), WithheldAfter(s, withheld, step, b, x), b, x)
  {
    StepOnConn(limits, s, step, x);
    StaysUnregistered(limits, s, step, b);
  }

  /** All that is known of the state besides. */
  ghost predicate Sound(limits: Limits, s: State, b: PeerId, x: PeerId) {
    && RoomsAgree(limits, s) && Locked(s)
    && MetAgrees(s, b) && MetAgrees(s, x) && HellosAgree(s, b) && MeetingAgrees(s, x, b) && Quiet(s, b, x)
    && DebtsStayInside(s, Main(x)) && DebtsStayInside(s, Reader(x))
  }

  /** `b` enters the room: it meets those who are there, and was told nothing before. */
  lemma {:induction false} PictureAtRegistration(limits: Limits, s: State, withheld: Entry, step: Step, g: Group, b: PeerId, x: PeerId)
    requires Sound(limits, s, b, x) && WithheldAgrees(s, withheld, b, x) && Registers(s, step, b) && b in RoomOf(Do(limits, s, step).rooms, g)
    ensures PictureAgrees(Do(limits, s, step), withheld, g, b, x)
  {
    var v := Do(limits, s, step);
    RegistrationStep(limits, s, step, b);
    StepOnRoom(limits, s, step, g);
    QueueStays(limits, s, step, b, x);
    assert PresenceAgrees(s, g, b) && PresenceAgrees(s, s.conns[b].group, b);
    assert s.conns[b].group == g;
    if x != b {
      assert ReaderFollows(s, x);
      OwedStays(limits, s, step, x, b);
    } else {
      assert ReaderFollows(s, b);
      StepOnConn(limits, s, step, b);
    }
  }

  /** `b` was in the room before, and the step neither changes the room nor what is said or owed about `x`. */
  lemma {:induction false} PictureStays(limits: Limits, s: State, withheld: Entry, step: Step, g: Group, b: PeerId, x: PeerId)
    requires Sound(limits, s, b, x) && WithheldAgrees(s, withheld, b, x) && PictureAgrees(s, withheld, g, b, x) && b in RoomOf(s.rooms, g)
    requires !TouchesOwed(step, x, b)
    ensures PictureAgrees(Do(limits, s, step), withheld, g, b, x)
  {
    assert ReaderFollows(s, x) && PresenceAgrees(s, g, b);
    QueueStays(limits, s, step, b, x);
    MetStays(limits, s, step, b);
    OwedStays(limits, s, step, x, b);
    StepOnRoom(limits, s, step, g);
    assert EntryOf(RoomAfter(s, step, g), x) == EntryOf(RoomOf(s.rooms, g), x) || x == b;
  }

  /** `x` acts under a lock. */
  lemma {:induction false} PictureAfterMainAct(limits: Limits, s: State, withheld: Entry, g: Group, b: PeerId, x: PeerId)
    requires Sound(limits, s, b, x) && WithheldAgrees(s, withheld, b, x) && PictureAgrees(s, withheld, g, b, x) && b in RoomOf(s.rooms, g)
    ensures PictureAgrees(Do(limits, s, Act(Main(x))), withheld, g, b, x)
  {
    var step := Act(Main(x));
    assert ReaderFollows(s, x) && PresenceAgrees(s, g, b) && PresenceAgrees(s, g, x);
    QueueStays(limits, s, step, b, x);
    StepOnConn(limits, s, step, x);
    StepOnConn(limits, s, step, b);
    StepOnRoom(limits, s, step, g);
    MetStays(limits, s, step, b);
    if x in s.conns {
      assert PresenceAgrees(s, s.conns[x].group, b);
      assert b in RoomOf(s.rooms, s.conns[x].group) <==> s.conns[x].group == g;
      if s.conns[x].main.Admitted? {
        assert EntryOf(MetBy(s, b), x) == None;
      }
    }
  }

  lemma {:induction false} PictureAfterReaderAct(limits: Limits, s: State, withheld: Entry, g: Group, b: PeerId, x: PeerId)
    requires Sound(limits, s, b, x) && WithheldAgrees(s, withheld, b, x) && PictureAgrees(s, withheld, g, b, x) && b in RoomOf(s.rooms, g)
    ensures PictureAgrees(Do(limits, s, Act(Reader(x))), withheld, g, b, x)
  {
    var step := Act(Reader(x));
    assert ReaderFollows(s, x) && PresenceAgrees(s, g, b) && PresenceAgrees(s, g, x);
    QueueStays(limits, s, step, b, x);
    StepOnConn(limits, s, step, x);
    StepOnConn(limits, s, step, b);
    StepOnRoom(limits, s, step, g);
    MetStays(limits, s, step, b);
    if x in s.conns {
      assert PresenceAgrees(s, s.conns[x].group, b) && PresenceAgrees(s, s.conns[x].group, x);
    }
  }

  /** `x` tells `b`. */
  lemma {:induction false} PictureAfterMainSend(limits: Limits, s: State, withheld: Entry, g: Group, b: PeerId, x: PeerId)
    requires Sound(limits, s, b, x) && WithheldAgrees(s, withheld, b, x) && PictureAgrees(s, withheld, g, b, x) && b in RoomOf(s.rooms, g)
    ensures PictureAgrees(Do(limits, s, Deliver(Main(x), b)), withheld, g, b, x)
  {
    assert ReaderFollows(s, x) && PresenceAgrees(s, g, b);
    MainTellsQueue(limits, s, b, x);
    MainTells(limits, s, b, x);
    StepOnRoom(limits, s, Deliver(Main(x), b), g);
    MetStays(limits, s, Deliver(Main(x), b), b);
  }

  lemma {:induction false} PictureAfterReaderSend(limits: Limits, s: State, withheld: Entry, g: Group, b: PeerId, x: PeerId)
    requires Sound(limits, s, b, x) && WithheldAgrees(s, withheld, b, x) && PictureAgrees(s, withheld, g, b, x) && b in RoomOf(s.rooms, g)
    ensures PictureAgrees(Do(limits, s, Deliver(Reader(x), b)), withheld, g, b, x)
  {
    assert ReaderFollows(s, x) && PresenceAgrees(s, g, b);
    ReaderTellsQueue(limits, s, b, x);
    ReaderTells(limits, s, b, x);
    StepOnRoom(limits, s, Deliver(Reader(x), b), g);
    MetStays(limits, s, Deliver(Reader(x), b), b);
  }

  lemma {:induction false} PictureAfterAbort(limits: Limits, s: State, withheld: Entry, g: Group, b: PeerId, x: PeerId)
    requires Sound(limits, s, b, x) && WithheldAgrees(s, withheld, b, x) && PictureAgrees(s, withheld, g, b, x) && b in RoomOf(s.rooms, g)
    ensures PictureAgrees(Do(limits, s, Abort(x)), WithheldAfter(s, withheld, Abort(x), b, x), g, b, x)
  {
    assert ReaderFollows(s, x) && PresenceAgrees(s, g, b);
    QueueStays(limits, s, Abort(x), b, x);
    StepOnConn(limits, s, Abort(x), x);
    StepOnRoom(limits, s, Abort(x), g);
    MetStays(limits, s, Abort(x), b);
  }

  lemma {:induction false} StepKeepsPicture(limits: Limits, s: State, withheld: Entry, step: Step, g: Group, b: PeerId, x: PeerId)
    requires Sound(limits, s, b, x) && WithheldAgrees(s, withheld, b, x) && PictureAgrees(s, withheld, g, b, x)
    ensures PictureAgrees(Do(limits, s, step), WithheldAfter(s, withheld, step, b, x), g, b, x)
  {
    var v := Do(limits, s, step);
    StepOnRoom(limits, s, step, g);
    if b in RoomOf(v.rooms, g) {
      if Registers(s, step, b) {
        PictureAtRegistration(limits, s, withheld, step, g, b, x);
      } else {
        assert b in RoomOf(s.rooms, g);
        if step == Act(Main(x)) {
          PictureAfterMainAct(limits, s, withheld, g, b, x);
        } else if step == Act(Reader(x)) {
          PictureAfterReaderAct(limits, s, withheld, g, b, x);
        } else if step == Deliver(Main(x), b) {
          PictureAfterMainSend(limits, s, withheld, g, b, x);
        } else if step == Deliver(Reader(x), b) {
          PictureAfterReaderSend(limits, s, withheld, g, b, x);
        } else if step == Abort(x) {
          PictureAfterAbort(limits, s, withheld, g, b, x);
        } else {
          PictureStays(limits, s, withheld, step, g, b, x);
        }
      }
    }
  }

  // Every run

  lemma {:induction false} QuietInEveryRun(limits: Limits, steps: seq<Step>, b: PeerId, x: PeerId)
    ensures Quiet(Reach(limits, steps), b, x)
  {
    if steps != [] {
      var before, step := steps[..|steps| - 1], steps[|steps| - 1];
      QuietInEveryRun(limits, before, b, x);
      RegistryIsConserved(limits, before);
      assert ReaderFollows(Reach(limits, before), x);
      StepKeepsQuiet(limits, Reach(limits, before), step, b, x);
    }
  }

  lemma {:induction false} SoundInEveryRun(limits: Limits, steps: seq<Step>, b: PeerId, x: PeerId)
    ensures Sound(limits, Reach(limits, steps), b, x)
  {
    var s := Reach(limits, steps);
    RegistryIsConserved(limits, steps);
    PeersInEveryRun(limits, steps);
    QuietInEveryRun(limits, steps, b, x);
    DebtsInEveryRun(limits, steps, Main(x));
    DebtsInEveryRun(limits, steps, Reader(x));
    assert MetAgrees(s, b) && MetAgrees(s, x) && HellosAgree(s, b) && MeetingAgrees(s, x, b);
  }

  lemma {:induction false} PicturesInEveryRun(limits: Limits, steps: seq<Step>, g: Group, b: PeerId, x: PeerId)
    ensures WithheldAgrees(Reach(limits, steps), Withheld(limits, steps, b, x), b, x)
    ensures PictureAgrees(Reach(limits, steps), Withheld(limits, steps, b, x), g, b, x)
  {
    if steps != [] {
      var before, step := steps[..|steps| - 1], steps[|steps| - 1];
      var s, withheld := Reach(limits, before), Withheld(limits, before, b, x);
      PicturesInEveryRun(limits, before, g, b, x);
      SoundInEveryRun(limits, before, b, x);
      assert ReaderFollows(s, x);
      StepKeepsWithheld(limits, s, withheld, step, b, x);
      StepKeepsPicture(limits, s, withheld, step, g, b, x);
    }
  }

  /** What the queue of `b` says about `x`, order disregarded, once an update that was broken off is put in. */
  function SaysWithWithheld(limits: Limits, steps: seq<Step>, b: PeerId, x: PeerId): Entry {
    var log, withheld := Reach(limits, steps).log, Withheld(limits, steps, b, x);
    if withheld.Some? && !LeftQueued(log, b, x) then withheld else Says(log, b, x)
  }

  /** When nothing is owed in the group, this is the truth for a live client. */
  lemma {:induction false} QueueSaysTheTruth(limits: Limits, steps: seq<Step>, g: Group, b: PeerId, x: PeerId)
    requires var s := Reach(limits, steps); Calm(s, g) && b in RoomOf(s.rooms, g)
    ensures var s := Reach(limits, steps); SaysWithWithheld(limits, steps, b, x) == EntryOf(RoomOf(s.rooms, g) - {b}, x)
  {
    var s := Reach(limits, steps);
    PicturesInEveryRun(limits, steps, g, b, x);
    SoundInEveryRun(limits, steps, b, x);
    assert PresenceAgrees(s, g, b);
    assert !OwesIn(s, Main(b), g);
    assert OwedTo(s, x, b) == NOTHING by {
      assert !OwesIn(s, Main(x), g) && !OwesIn(s, Reader(x), g);
      assert OwedTo(s, x, b).left || OwedTo(s, x, b).join ==> Debt(s, Main(x), b).Some?;
      assert OwedTo(s, x, b).update.Some? ==> Debt(s, Reader(x), b).Some?;
    }
  }

  /**
   What makes the picture of `b` right about `x`. If an update of `x` was
   broken off before `b` was told, and no Left of `x` makes up for it, then the
   queue must show what that update said all the same. Otherwise its order must
   not spoil what it says.
   */
  predicate RightAbout(limits: Limits, steps: seq<Step>, b: PeerId, x: PeerId) {
    var log, withheld := Reach(limits, steps).log, Withheld(limits, steps, b, x);
    if withheld.Some? && !LeftQueued(log, b, x) then EntryOf(View(log, b), x) == withheld else !Spoiled(log, b, x)
  }

  /**
   Over every interleaving, and whenever all has been told: the picture of a
   live client is exactly its group in the registry, itself left out, if and
   only if the order of its queue spoils nothing and no update was withheld
   that it does not show. What is wrong is wrong about these peers and no
   others.
   */
  lemma {:induction false} PictureIsRightIff(limits: Limits, steps: seq<Step>, g: Group, b: PeerId)
    requires var s := Reach(limits, steps); Calm(s, g) && b in RoomOf(s.rooms, g)
    ensures var s := Reach(limits, steps);
      && (View(s.log, b) == RoomOf(s.rooms, g) - {b} <==> forall x :: RightAbout(limits, steps, b, x))
      && (forall x :: EntryOf(View(s.log, b), x) == EntryOf(RoomOf(s.rooms, g) - {b}, x) <==> RightAbout(limits, steps, b, x))
  {
    var s := Reach(limits, steps);
    forall x ensures EntryOf(View(s.log, b), x) == EntryOf(RoomOf(s.rooms, g) - {b}, x) <==> RightAbout(limits, steps, b, x) {
      QueueSaysTheTruth(limits, steps, g, b, x);
      SpoiledIff(s.log, b, x);
    }
    SameEntries(View(s.log, b), RoomOf(s.rooms, g) - {b});
  }

  lemma {:induction false} SameEntries(a: Room, b: Room)
    ensures a == b <==> forall x :: EntryOf(a, x) == EntryOf(b, x)
  {
    if forall x :: EntryOf(a, x) == EntryOf(b, x) {
      forall x ensures (x in a <==> x in b) && (x in a ==> a[x] == b[x]) {
        assert EntryOf(a, x) == EntryOf(b, x);
      }
    }
  }

  // Orders that do no harm

  /** The greeting comes before everything else, and nothing of a peer comes after its Left. */
  predicate InOrder(log: Log, b: PeerId) {
    log == [] ||
    (&& InOrder(Front(log), b)
     && (Last(log).Queued? && Last(log).at == b ==>
          match Last(log).message
          case Hello(_, _) => Hellos(Front(log), b) == []
          case Join(peer) => Hellos(Front(log), b) != [] && !LeftQueued(Front(log), b, peer.id)
          case Update(peer) => Hellos(Front(log), b) != [] && !LeftQueued(Front(log), b, peer.id)
          case Left(_) => Hellos(Front(log), b) != []
          case _ => true))
  }

  lemma {:induction false} NothingBeforeGreeting(log: Log, b: PeerId, x: PeerId)
    requires InOrder(log, b) && Hellos(log, b) == []
    ensures !LeftQueued(log, b, x) && Latest(log, b, x).None?
  {
    if log != [] {
      NothingBeforeGreeting(Front(log), b, x);
    }
  }

  lemma {:induction false} InOrderSpoilsNothing(log: Log, b: PeerId, x: PeerId)
    requires InOrder(log, b)
    ensures !Spoiled(log, b, x)
  {
    if log != [] {
      InOrderSpoilsNothing(Front(log), b, x);
      if Last(log).Queued? && Last(log).at == b && Last(log).message.Hello? {
        NothingBeforeGreeting(Front(log), b, x);
      }
    }
  }

  /** An update of `x`, who is still there, was broken off before `b` was told, and `b` has not heard the same otherwise. */
  predicate Misses(limits: Limits, steps: seq<Step>, g: Group, b: PeerId, x: PeerId) {
    var s, withheld := Reach(limits, steps), Withheld(limits, steps, b, x);
    x in RoomOf(s.rooms, g) - {b} && withheld.Some? && Says(s.log, b, x) != withheld
  }

  /** So a queue that is in order gives the right picture exactly if it misses no update that was broken off. */
  lemma {:induction false} OrderlyQueueIsRight(limits: Limits, steps: seq<Step>, g: Group, b: PeerId)
    requires var s := Reach(limits, steps); Calm(s, g) && b in RoomOf(s.rooms, g) && InOrder(s.log, b)
    ensures var s := Reach(limits, steps);
      View(s.log, b) == RoomOf(s.rooms, g) - {b} <==> forall x :: !Misses(limits, steps, g, b, x)
  {
    var s := Reach(limits, steps);
    forall x ensures EntryOf(View(s.log, b), x) == EntryOf(RoomOf(s.rooms, g) - {b}, x) <==> !Misses(limits, steps, g, b, x) {
      InOrderSpoilsNothing(s.log, b, x);
      SpoiledIff(s.log, b, x);
      QueueSaysTheTruth(limits, steps, g, b, x);
    }
    SameEntries(View(s.log, b), RoomOf(s.rooms, g) - {b});
  }

  // A Left that comes before the greeting

  /** `x` has left, has told `b` so, and `b` was greeted and still sees it. */
  predicate Haunted(s: State, b: PeerId, x: PeerId) {
    && x in s.conns && s.conns[x].main.Leaving? && b !in s.conns[x].main.pending
    && Introduced(s, b) && x in View(s.log, b)
  }

  lemma {:induction false} StepKeepsHaunted(limits: Limits, s: State, step: Step, b: PeerId, x: PeerId)
    requires Haunted(s, b, x)
    ensures Haunted(Do(limits, s, step), b, x)
  {
    var es := Happened(limits, s, step);
    StepOnConn(limits, s, step, x);
    StepOnConn(limits, s, step, b);
    ViewGrows(limits, s, step, b);
    GreetingStep(limits, s, step, b);
    if |es| == 1 && SaysLeft(es[0], b, x) {
      assert es == [es[0]];
      WhoConcerns(limits, s, step, b, x, es[0]);
    }
  }

  lemma {:induction false} OneStepMore(limits: Limits, steps: seq<Step>, step: Step)
    ensures Reach(limits, steps + [step]) == Do(limits, Reach(limits, steps), step)
  {
    assert (steps + [step])[..|steps|] == steps;
  }

  lemma {:induction false} HauntedEverAfter(limits: Limits, steps: seq<Step>, more: seq<Step>, b: PeerId, x: PeerId)
    requires Haunted(Reach(limits, steps), b, x)
    ensures Haunted(Reach(limits, steps + more), b, x)
    decreases |more|
  {
    if more == [] {
      assert steps + more == steps;
    } else {
      var front, last := more[..|more| - 1], more[|more| - 1];
      HauntedEverAfter(limits, steps, front, b, x);
      StepKeepsHaunted(limits, Reach(limits, steps + front), last, b, x);
      assert steps + more == steps + front + [last];
      OneStepMore(limits, steps + front, last);
    }
  }

  /** A picture that shows a peer which has left and has said so shows it for good, in every continuation. */
  lemma {:induction false} HauntedForGood(limits: Limits, steps: seq<Step>, more: seq<Step>, b: PeerId, x: PeerId)
    requires Haunted(Reach(limits, steps), b, x)
    ensures var s := Reach(limits, steps + more);
      x in View(s.log, b) && forall g :: x !in RoomOf(s.rooms, g)
  {
    HauntedEverAfter(limits, steps, more, b, x);
    LeaversAreNowhere(limits, steps + more, x);
  }

  lemma {:induction false} LeaversAreNowhere(limits: Limits, steps: seq<Step>, x: PeerId)
    requires var s := Reach(limits, steps); x in s.conns && s.conns[x].main.Leaving?
    ensures forall g :: x !in RoomOf(Reach(limits, steps).rooms, g)
  {
    RegistryIsConserved(limits, steps);
    forall g ensures x !in RoomOf(Reach(limits, steps).rooms, g) {
      assert PresenceAgrees(Reach(limits, steps), g, x);
    }
  }

  /** Whose Left is queued at `b` has left, and has nothing more to tell `b`. */
  ghost predicate LeftAgrees(s: State, b: PeerId, x: PeerId) {
    LeftQueued(s.log, b, x) ==> x in s.conns && s.conns[x].main.Leaving? && b !in s.conns[x].main.pending
  }

  lemma {:induction false} StepKeepsLeft(limits: Limits, s: State, step: Step, b: PeerId, x: PeerId)
    requires LeftAgrees(s, b, x)
    ensures LeftAgrees(Do(limits, s, step), b, x)
  {
    if step == Deliver(Main(x), b) {
      MainTellsQueue(limits, s, b, x);
    } else if step == Deliver(Reader(x), b) {
      ReaderTellsQueue(limits, s, b, x);
    } else {
      QueueStays(limits, s, step, b, x);
    }
    StepOnConn(limits, s, step, x);
  }

  lemma {:induction false} LeftInEveryRun(limits: Limits, steps: seq<Step>, b: PeerId, x: PeerId)
    ensures LeftAgrees(Reach(limits, steps), b, x)
  {
    if steps != [] {
      LeftInEveryRun(limits, steps[..|steps| - 1], b, x);
      StepKeepsLeft(limits, Reach(limits, steps[..|steps| - 1]), steps[|steps| - 1], b, x);
    }
  }

  /**
   If a peer's Left is in a client's queue when the greeting that lists it
   arrives there, the client shows that peer ever after, in every
   continuation, although no room holds it any more.
   */
  lemma {:induction false} LeftBeforeGreetingHaunts(limits: Limits, steps: seq<Step>, more: seq<Step>, b: PeerId, x: PeerId)
    requires var s := Reach(limits, steps);
      Greets(s, Deliver(Main(b), b), b) && LeftQueued(s.log, b, x) && x in s.conns[b].main.met
    ensures var s := Reach(limits, steps + [Deliver(Main(b), b)] + more);
      x in View(s.log, b) && forall g :: x !in RoomOf(s.rooms, g)
  {
    var s, step := Reach(limits, steps), Deliver(Main(b), b);
    var next := steps + [step];
    assert next[..|next| - 1] == steps;
    LeftInEveryRun(limits, steps, b, x);
    GreetingStep(limits, s, step, b);
    ViewGrows(limits, s, step, b);
    StepOnConn(limits, s, step, x);
    assert Haunted(Reach(limits, next), b, x);
    HauntedForGood(limits, next, more, b, x);
  }
}
