/** Why the pictures are right only if changes take effect one after the other. */
module SignalingStale {
  import opened Prelude
  import opened Model
  import opened Signaling
  import opened SignalingRegistry
  import opened SignalingView
  import opened SignalingPicture

  const LIMITS: Limits := Limits(10, 1000)
  const INFO: ClientInfoWithoutId := ClientInfoWithoutId("peer", "2.1", None, None, "token")
  const ROOM: Group := "192.168.0.1"

  /** One peer, alone in its room, and greeted. */
  const ALONE: State := State(
    map[ROOM := map["a" := INFO]], map[ROOM := 1], None, None,
    map["a" := Conn(ROOM, INFO, Serving, Listening)], Resting,
    [Counted(ROOM, Main("a")), Registered("a", ROOM), Queued("a", Hello(WithId(INFO, "a"), map[]))])

  /** A second peer has been registered and has told the first about itself. */
  const TOLD: State := State(
    map[ROOM := map["a" := INFO, "b" := INFO]], map[ROOM := 2], None, None,
    map["a" := Conn(ROOM, INFO, Serving, Listening), "b" := Conn(ROOM, INFO, Joining(map["a" := INFO], {}), Unborn)], Resting,
    ALONE.log + [Counted(ROOM, Main("b")), Registered("b", ROOM), Queued("a", Join(WithId(INFO, "b")))])

  /** The first peer has left meanwhile, and its farewell came before the second one's greeting. */
  const STALE: State := State(
    map[ROOM := map["b" := INFO]], map[ROOM := 2], None, None,
    map["a" := Conn(ROOM, INFO, Leaving({}), Listening), "b" := Conn(ROOM, INFO, Serving, Listening)], Resting,
    TOLD.log + [Removed("a", ROOM), Queued("b", Left("a")), Queued("b", Hello(WithId(INFO, "b"), map["a" := INFO]))])

  lemma {:induction false} Next(steps: seq<Step>, s: State, step: Step) returns (more: seq<Step>)
    requires Reach(LIMITS, steps) == s
    ensures Reach(LIMITS, more) == Do(LIMITS, s, step)
  {
    more := steps + [step];
    assert more[..|more| - 1] == steps;
  }

  /** A connection in the course of its connect. */
  function At(s: State, id: PeerId, pc: MainPc, rooms: bool, count: bool): State {
    s.(conns := s.conns[id := Conn(ROOM, INFO, pc, Unborn)],
       roomsLock := if rooms then Some(Main(id)) else None, countLock := if count then Some(Main(id)) else None)
  }

  predicate Free(s: State, id: PeerId) {
    && id !in s.conns && s.roomsLock.None? && s.countLock.None?
    && |RoomOf(s.rooms, ROOM)| < LIMITS.maxConnections && CountOf(s.counts, ROOM) < LIMITS.maxRequests
  }

  function CountedIn(s: State, id: PeerId): State
    requires Free(s, id)
  {
    s.(rooms := Opened(s.rooms, ROOM), counts := s.counts[ROOM := CountOf(s.counts, ROOM) + 1], log := s.log + [Counted(ROOM, Main(id))])
  }

  lemma {:induction false} Arrives(s: State, id: PeerId)
    requires Free(s, id)
    ensures Do(LIMITS, s, Arrive(id, ROOM, INFO)) == At(s, id, Asking, false, false)
    ensures Do(LIMITS, At(s, id, Asking, false, false), Lock(Main(id))) == At(s, id, Checking, true, false)
  {
  }

  lemma {:induction false} Checks(s: State, id: PeerId)
    requires Free(s, id)
    ensures Do(LIMITS, At(s, id, Checking, true, false), Act(Main(id)))
         == At(s, id, WantsCount, true, false).(rooms := Opened(s.rooms, ROOM))
    ensures Do(LIMITS, At(s, id, WantsCount, true, false).(rooms := Opened(s.rooms, ROOM)), Lock(Main(id)))
         == At(s, id, MainPc.Counting, true, true).(rooms := Opened(s.rooms, ROOM))
  {
  }

  lemma {:induction false} Counts(s: State, id: PeerId)
    requires Free(s, id)
    ensures Do(LIMITS, At(s, id, MainPc.Counting, true, true).(rooms := Opened(s.rooms, ROOM)), Act(Main(id)))
         == At(CountedIn(s, id), id, Admitted, true, false)
  {
  }

  function RegisteredIn(s: State, id: PeerId): State
    requires Free(s, id)
  {
    var room := RoomOf(s.rooms, ROOM);
    At(s, id, Joining(room, room.Keys), false, false)
      .(rooms := s.rooms[ROOM := room[id := INFO]], counts := s.counts[ROOM := CountOf(s.counts, ROOM) + 1],
        log := s.log + [Counted(ROOM, Main(id))] + [Registered(id, ROOM)])
  }

  lemma {:induction false} Registers(s: State, id: PeerId)
    requires Free(s, id)
    ensures Do(LIMITS, At(CountedIn(s, id), id, Admitted, true, false), Act(Main(id))) == RegisteredIn(s, id)
  {
    assert RoomOf(Opened(s.rooms, ROOM), ROOM) == RoomOf(s.rooms, ROOM);
  }

  /** A connect that meets no obstacle, up to its registration. */
  lemma {:induction false} Connects(before: seq<Step>, s: State, id: PeerId) returns (steps: seq<Step>)
    requires Reach(LIMITS, before) == s && Free(s, id)
    ensures Reach(LIMITS, steps) == RegisteredIn(s, id)
  {
    Arrives(s, id);
    Checks(s, id);
    Counts(s, id);
    Registers(s, id);
    steps := Next(before, s, Arrive(id, ROOM, INFO));
    steps := Next(steps, At(s, id, Asking, false, false), Lock(Main(id)));
    steps := Next(steps, At(s, id, Checking, true, false), Act(Main(id)));
    steps := Next(steps, At(s, id, WantsCount, true, false).(rooms := Opened(s.rooms, ROOM)), Lock(Main(id)));
    steps := Next(steps, At(s, id, MainPc.Counting, true, true).(rooms := Opened(s.rooms, ROOM)), Act(Main(id)));
    steps := Next(steps, At(CountedIn(s, id), id, Admitted, true, false), Act(Main(id)));
  }

  lemma {:induction false} FirstGreets()
    ensures Do(LIMITS, RegisteredIn(EMPTY, "a"), Deliver(Main("a"), "a")) == ALONE
  {
  }

  lemma {:induction false} SecondTells()
    ensures Free(ALONE, "b")
    ensures Do(LIMITS, RegisteredIn(ALONE, "b"), Deliver(Main("b"), "a")) == TOLD
  {
    assert {"a"} - {"a"} == {};
    var r := RegisteredIn(ALONE, "b");
    assert RoomOf(ALONE.rooms, ROOM) == map["a" := INFO] && RoomOf(ALONE.rooms, ROOM).Keys == {"a"};
    assert r.conns["b"].main == Joining(map["a" := INFO], {"a"});
    assert map["a" := INFO]["b" := INFO] == map["a" := INFO, "b" := INFO];
    assert r.rooms == TOLD.rooms && r.counts == TOLD.counts;
    assert Do(LIMITS, r, Deliver(Main("b"), "a")).log == TOLD.log;
    assert Do(LIMITS, r, Deliver(Main("b"), "a")).conns == TOLD.conns;
  }

  function Parted(pc: MainPc, lock: Option<TaskId>): State {
    TOLD.(conns := TOLD.conns["a" := Conn(ROOM, INFO, pc, Listening)], roomsLock := lock)
  }

  const REMOVED: State := Parted(Leaving({"b"}), None).(rooms := map[ROOM := map["b" := INFO]], log := TOLD.log + [Removed("a", ROOM)])

  const FAREWELL: State := Parted(Leaving({}), None)
    .(rooms := map[ROOM := map["b" := INFO]], log := TOLD.log + [Removed("a", ROOM)] + [Queued("b", Left("a"))])

  lemma {:induction false} FirstParts()
    ensures Do(LIMITS, TOLD, Disconnect("a")) == Parted(Parting, None)
    ensures Do(LIMITS, Parted(Parting, None), Lock(Main("a"))) == Parted(Removing, Some(Main("a")))
  {
  }

  lemma {:induction false} FirstIsRemoved()
    ensures Do(LIMITS, Parted(Removing, Some(Main("a"))), Act(Main("a"))) == REMOVED
  {
    var r := Parted(Removing, Some(Main("a")));
    assert TOLD.rooms[ROOM] - {"a"} == map["b" := INFO] && map["b" := INFO].Keys == {"b"};
    assert "b" in map["b" := INFO];
    assert Vacated(r.rooms, ROOM, "a") == map[ROOM := map["b" := INFO]];
    assert Do(LIMITS, r, Act(Main("a"))).conns == REMOVED.conns;
  }

  lemma {:induction false} FirstSaysFarewell()
    ensures Do(LIMITS, REMOVED, Deliver(Main("a"), "b")) == FAREWELL
  {
    assert {"b"} - {"b"} == {};
  }

  lemma {:induction false} SecondIsGreeted()
    ensures Do(LIMITS, FAREWELL, Deliver(Main("b"), "b")) == STALE
  {
  }

  lemma {:induction false} StaleIsReached() returns (steps: seq<Step>)
    ensures Reach(LIMITS, steps) == STALE
  {
    steps := Connects([], EMPTY, "a");
    FirstGreets();
    steps := Next(steps, RegisteredIn(EMPTY, "a"), Deliver(Main("a"), "a"));
    SecondTells();
    steps := Connects(steps, ALONE, "b");
    steps := Next(steps, RegisteredIn(ALONE, "b"), Deliver(Main("b"), "a"));
    FirstParts();
    steps := Next(steps, TOLD, Disconnect("a"));
    steps := Next(steps, Parted(Parting, None), Lock(Main("a")));
    FirstIsRemoved();
    steps := Next(steps, Parted(Removing, Some(Main("a"))), Act(Main("a")));
    FirstSaysFarewell();
    steps := Next(steps, REMOVED, Deliver(Main("a"), "b"));
    SecondIsGreeted();
    steps := Next(steps, FAREWELL, Deliver(Main("b"), "b"));
  }

  lemma {:induction false} StaleIsWrong()
    ensures Calm(STALE, ROOM) && RoomOf(STALE.rooms, ROOM).Keys == {"b"} && View(STALE.log, "b") == map["a" := INFO]
  {
    assert Last(STALE.log) == Queued("b", Hello(WithId(INFO, "b"), map["a" := INFO]));
    assert RoomOf(STALE.rooms, ROOM) == map["b" := INFO];
  }

  /**
   There is an interleaving in which a peer leaves between another's
   registration and greeting: all has been told, and yet the second client
   lists a peer that is no longer there, in every continuation.
   */
  lemma {:induction false} APictureCanStayWrong() returns (steps: seq<Step>)
    ensures var s := Reach(LIMITS, steps);
      Calm(s, ROOM) && "b" in RoomOf(s.rooms, ROOM)
    ensures forall more :: "a" in View(Reach(LIMITS, steps + more).log, "b") && "a" !in RoomOf(Reach(LIMITS, steps + more).rooms, ROOM)
    ensures !OneByOne(LIMITS, steps, ROOM)
  {
    steps := StaleIsReached();
    StaleIsWrong();
    assert Haunted(STALE, "b", "a");
    forall more ensures "a" in View(Reach(LIMITS, steps + more).log, "b") && "a" !in RoomOf(Reach(LIMITS, steps + more).rooms, ROOM) {
      HauntedForGood(LIMITS, steps, more, "b", "a");
    }
    if OneByOne(LIMITS, steps, ROOM) {
      ViewsAreRight(LIMITS, steps, ROOM, "b");
    }
  }
}
