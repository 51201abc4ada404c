/** What the server relays for a peer was asked for by it, passes unchanged, and stays in its group. */
module SignalingRelay {
  import opened Model
  import opened Signaling
  import opened SignalingSteps
  import opened SignalingLocks
  import opened SignalingRegistry

  /** The messages that a peer's reader sends to others. */
  predicate IsRelay(m: ServerMessage) {
    m.Offer? || m.Answer? || m.Update?
  }

  /** The peer in whose name a message is relayed. */
  function Subject(m: ServerMessage): ClientInfo
    requires IsRelay(m)
  {
    if m.Update? then m.peer else m.sdp.peer
  }

  /** What a peer must have asked for if `m` is queued at `at` in its name. */
  function Request(at: PeerId, m: ServerMessage): ClientMessage
    requires IsRelay(m)
  {
    match m
    case Offer(sdp) => ClientOffer(sdp.sessionId, at, sdp.sdp)
    case Answer(sdp) => ClientAnswer(sdp.sessionId, at, sdp.sdp)
    case Update(peer) => ClientUpdate(WithoutId(peer))
  }

  predicate Asks(h: Happening, p: PeerId, m: ClientMessage) {
    h.Heard? && h.id == p && h.request == m
  }

  predicate Relays(h: Happening, p: PeerId, m: ClientMessage, at: PeerId) {
    h.Queued? && h.at == at && IsRelay(h.message) && Subject(h.message).id == p && Request(at, h.message) == m
  }

  /** How often `m` was accepted from `p`. */
  function Asked(log: Log, p: PeerId, m: ClientMessage): nat {
    if log == [] then 0 else Asked(Front(log), p, m) + if Asks(Last(log), p, m) then 1 else 0
  }

  /** How often it was relayed to `at`, read off the queue there. */
  function Relayed(log: Log, p: PeerId, m: ClientMessage, at: PeerId): nat {
    if log == [] then 0 else Relayed(Front(log), p, m, at) + if Relays(Last(log), p, m, at) then 1 else 0
  }

  /** Whether `p`'s reader is acting upon it and has not relayed it to `at` yet. */
  function InHand(s: State, p: PeerId, m: ClientMessage, at: PeerId): nat {
    if p !in s.conns then 0
    else match s.conns[p].reader
      case WantsRooms(now) => if now == m then 1 else 0
      case InRooms(now) => if now == m then 1 else 0
      case Spreading(now, pending) => if now == m && at in pending then 1 else 0
      case _ => 0
  }

  lemma {:induction false} LogGrowsForRelay(log: Log, h: Happening, p: PeerId, m: ClientMessage, at: PeerId)
    ensures Relayed(log + [h], p, m, at) == Relayed(log, p, m, at) + if Relays(h, p, m, at) then 1 else 0
    ensures Asked(log + [h], p, m) == Asked(log, p, m) + if Asks(h, p, m) then 1 else 0
  {
    Snoc(log, h);
  }

  /** Everything the reader will deliver goes where the message says, and only to peers of the group. */
  ghost predicate SpreadsRight(s: State, p: PeerId) {
    p in s.conns && s.conns[p].reader.Spreading? ==>
      var m, pending := s.conns[p].reader.message, s.conns[p].reader.pending;
      && (!m.ClientUpdate? ==> pending <= {m.target})
      && forall to :: to in pending ==> to in s.conns && s.conns[to].group == s.conns[p].group
  }

  lemma {:induction false} StepKeepsSpread(limits: Limits, s: State, step: Step, p: PeerId)
    requires SpreadsRight(s, p) && RoomsAgree(limits, s)
    ensures SpreadsRight(Do(limits, s, step), p)
  {
    var v := Do(limits, s, step);
    StepOnConn(limits, s, step, p);
    if p in v.conns && v.conns[p].reader.Spreading? {
      forall to | to in v.conns[p].reader.pending ensures to in v.conns && v.conns[to].group == v.conns[p].group {
        StepOnConn(limits, s, step, to);
        assert PresenceAgrees(s, s.conns[p].group, to);
      }
    }
  }

  /** Looked up under the lock of the rooms, `m` of `p` has `at` to go to. */
  predicate Finds(room: Room, p: PeerId, m: ClientMessage, at: PeerId) {
    at in room && if m.ClientUpdate? then p in room && at != p else at == m.target
  }

  /** How often `m` of `p` was looked up and did not find `at`. */
  function Missed(limits: Limits, steps: seq<Step>, p: PeerId, m: ClientMessage, at: PeerId): nat {
    if steps == [] then 0
    else
      var before, step := steps[..|steps| - 1], steps[|steps| - 1];
      Missed(limits, before, p, m, at) + MissedIn(Reach(limits, before), step, p, m, at)
  }

  function MissedIn(s: State, step: Step, p: PeerId, m: ClientMessage, at: PeerId): nat {
    if step == Act(Reader(p)) && p in s.conns && s.conns[p].reader == InRooms(m)
       && !Finds(RoomOf(s.rooms, s.conns[p].group), p, m, at) then 1 else 0
  }

  /** How often `m` of `p` was broken off, by the end of its connection, before `at` was told. */
  function BrokenOff(limits: Limits, steps: seq<Step>, p: PeerId, m: ClientMessage, at: PeerId): nat {
    if steps == [] then 0
    else
      var before, step := steps[..|steps| - 1], steps[|steps| - 1];
      BrokenOff(limits, before, p, m, at) + BrokenIn(Reach(limits, before), step, p, m, at)
  }

  function BrokenIn(s: State, step: Step, p: PeerId, m: ClientMessage, at: PeerId): nat {
    if step == Abort(p) && p in s.conns && !s.conns[p].reader.InRooms? then InHand(s, p, m, at) else 0
  }

  /** Every request that was accepted was relayed, is in hand, missed its receiver or was broken off. */
  ghost predicate RelayAgrees(s: State, p: PeerId, m: ClientMessage, at: PeerId, lost: nat) {
    Asked(s.log, p, m) == Relayed(s.log, p, m, at) + InHand(s, p, m, at) + lost
  }

  /** What a step relays for `p` to `at`, and what it accepts from `p`. */
  function RelayedIn(es: Log, p: PeerId, m: ClientMessage, at: PeerId): nat {
    if |es| == 1 && Relays(es[0], p, m, at) then 1 else 0
  }

  function AskedIn(es: Log, p: PeerId, m: ClientMessage): nat {
    if |es| == 2 && Asks(es[1], p, m) then 1 else 0
  }

  lemma {:induction false} LogAfterTwo(log: Log, x: Happening, y: Happening, p: PeerId, m: ClientMessage, at: PeerId)
    requires x.Counted? && y.Heard?
    ensures Relayed(log + [x] + [y], p, m, at) == Relayed(log, p, m, at)
    ensures Asked(log + [x] + [y], p, m) == Asked(log, p, m) + if Asks(y, p, m) then 1 else 0
  {
    LogGrowsForRelay(log, x, p, m, at);
    LogGrowsForRelay(log + [x], y, p, m, at);
  }

  lemma {:induction false} LogAfter(limits: Limits, s: State, step: Step, p: PeerId, m: ClientMessage, at: PeerId)
    ensures var v, es := Do(limits, s, step), Happened(limits, s, step);
      && Relayed(v.log, p, m, at) == Relayed(s.log, p, m, at) + RelayedIn(es, p, m, at)
      && Asked(v.log, p, m) == Asked(s.log, p, m) + AskedIn(es, p, m)
  {
    var es := Happened(limits, s, step);
    StepOnLog(limits, s, step);
    if es == [] {
      assert s.log + es == s.log;
    } else if |es| == 1 {
      assert s.log + es == s.log + [es[0]];
      LogGrowsForRelay(s.log, es[0], p, m, at);
      assert !es[0].Heard?;
    } else {
      assert s.log + es == s.log + [es[0]] + [es[1]];
      LogAfterTwo(s.log, es[0], es[1], p, m, at);
    }
  }

  /** What a reader sends to `at`, it sends in its own name and upon the request in its hand. */
  lemma {:induction false} OnlyReaderRelays(limits: Limits, s: State, step: Step, p: PeerId, m: ClientMessage, at: PeerId)
    requires RelayedIn(Happened(limits, s, step), p, m, at) == 1
    requires forall q :: SpreadsRight(s, q)
    ensures step == Deliver(Reader(p), at) && InHand(s, p, m, at) == 1
    ensures p in s.conns && s.conns[p].reader.Spreading?
  {
    assert step.Deliver? && step.task.Reader?;
    assert SpreadsRight(s, step.task.id);
  }

  /** What a step of `p`'s reader, or its end, does to the request in hand. */
  lemma {:induction false} HandAfter(limits: Limits, s: State, step: Step, p: PeerId, m: ClientMessage, at: PeerId)
    requires (forall q :: SpreadsRight(s, q)) && ReaderFollows(s, p)
    ensures var es := Happened(limits, s, step);
      InHand(s, p, m, at) + AskedIn(es, p, m)
      == RelayedIn(es, p, m, at) + InHand(Do(limits, s, step), p, m, at) + MissedIn(s, step, p, m, at) + BrokenIn(s, step, p, m, at)
  {
    StepOnConn(limits, s, step, p);
    if RelayedIn(Happened(limits, s, step), p, m, at) == 1 {
      OnlyReaderRelays(limits, s, step, p, m, at);
    }
    assert SpreadsRight(s, p);
  }

  lemma {:induction false} StepKeepsRelay(limits: Limits, s: State, step: Step, p: PeerId, m: ClientMessage, at: PeerId, lost: nat)
    requires RelayAgrees(s, p, m, at, lost) && (forall q :: SpreadsRight(s, q)) && ReaderFollows(s, p)
    ensures RelayAgrees(Do(limits, s, step), p, m, at, lost + MissedIn(s, step, p, m, at) + BrokenIn(s, step, p, m, at))
  {
    LogAfter(limits, s, step, p, m, at);
    HandAfter(limits, s, step, p, m, at);
  }

  /** A message queued in the name of `p` goes to its own group; an offer or answer carries what `p` told of itself when it connected. */
  ghost predicate RelaysTruly(s: State, h: Happening) {
    h.Queued? && IsRelay(h.message) ==>
      var p := Subject(h.message);
      && p.id in s.conns && (h.message.Update? || p == WithId(s.conns[p.id].info, p.id))
      && h.at in s.conns && s.conns[h.at].group == s.conns[p.id].group
  }

  lemma {:induction false} StepKeepsTruth(limits: Limits, s: State, step: Step, h: Happening)
    requires RelaysTruly(s, h)
    ensures RelaysTruly(Do(limits, s, step), h)
  {
    if h.Queued? && IsRelay(h.message) {
      StepOnConn(limits, s, step, Subject(h.message).id);
      StepOnConn(limits, s, step, h.at);
    }
  }

  lemma {:induction false} NewIsTrue(limits: Limits, s: State, step: Step, h: Happening)
    requires h in Happened(limits, s, step)
    requires forall p :: SpreadsRight(s, p)
    ensures RelaysTruly(s, h)
  {
    if step.Deliver? && step.task.Reader? {
      assert SpreadsRight(s, step.task.id);
    }
  }

  ghost predicate AllRelayed(s: State) {
    && (forall p :: SpreadsRight(s, p))
    && (forall h :: h in s.log ==> RelaysTruly(s, h))
  }

  lemma {:induction false} RelayInEveryRun(limits: Limits, steps: seq<Step>)
    ensures AllRelayed(Reach(limits, steps))
  {
    if steps != [] {
      var before, step := steps[..|steps| - 1], steps[|steps| - 1];
      var s := Reach(limits, before);
      RelayInEveryRun(limits, before);
      RegistryIsConserved(limits, before);
      forall p ensures SpreadsRight(Do(limits, s, step), p) {
        assert SpreadsRight(s, p);
        StepKeepsSpread(limits, s, step, p);
      }
      StepOnLog(limits, s, step);
      forall h | h in Do(limits, s, step).log ensures RelaysTruly(Do(limits, s, step), h) {
        if h !in s.log {
          NewIsTrue(limits, s, step, h);
        }
        StepKeepsTruth(limits, s, step, h);
      }
    }
  }

  /**
   In every interleaving, request by request and queue by queue: what was
   accepted from a peer was relayed to `at`, is still in the hand of the peer's
   reader, did not find `at` when it was looked up, or was broken off by the
   end of the connection. So nothing is lost otherwise, and nothing is doubled.
   */
  lemma {:induction false} EveryRequestIsAccountedFor(limits: Limits, steps: seq<Step>, p: PeerId, m: ClientMessage, at: PeerId)
    ensures var s := Reach(limits, steps);
      Asked(s.log, p, m) == Relayed(s.log, p, m, at) + InHand(s, p, m, at) + Missed(limits, steps, p, m, at) + BrokenOff(limits, steps, p, m, at)
  {
    if steps != [] {
      var before, step := steps[..|steps| - 1], steps[|steps| - 1];
      EveryRequestIsAccountedFor(limits, before, p, m, at);
      RelayInEveryRun(limits, before);
      RegistryIsConserved(limits, before);
      assert ReaderFollows(Reach(limits, before), p);
      StepKeepsRelay(limits, Reach(limits, before), step, p, m, at, Missed(limits, before, p, m, at) + BrokenOff(limits, before, p, m, at));
    }
  }

  /** Whose reader was broken off does not listen any more. */
  lemma {:induction false} BrokenOffIsOver(limits: Limits, steps: seq<Step>, p: PeerId, m: ClientMessage, at: PeerId)
    ensures BrokenOff(limits, steps, p, m, at) > 0 ==> p in Reach(limits, steps).conns && Reach(limits, steps).conns[p].reader.Over?
  {
    if steps != [] {
      var before, step := steps[..|steps| - 1], steps[|steps| - 1];
      BrokenOffIsOver(limits, before, p, m, at);
      RegistryIsConserved(limits, before);
      assert ReaderFollows(Reach(limits, before), p);
      StepOnConn(limits, Reach(limits, before), step, p);
    }
  }

  /** Once a peer's reader listens again, every request it made is in the queues it found, each as often as it was made. */
  lemma {:induction false} RelaysArrive(limits: Limits, steps: seq<Step>, p: PeerId, m: ClientMessage, at: PeerId)
    requires var s := Reach(limits, steps); p in s.conns && s.conns[p].reader.Listening?
    ensures var s := Reach(limits, steps);
      Relayed(s.log, p, m, at) + Missed(limits, steps, p, m, at) == Asked(s.log, p, m)
  {
    EveryRequestIsAccountedFor(limits, steps, p, m, at);
    BrokenOffIsOver(limits, steps, p, m, at);
  }

  /**
   In every interleaving: what is relayed in the name of a peer is, request by
   request, what was accepted from it, each at most once to any one queue, and
   an offer or answer only to the target it names. It stays within the peer's
   own group. Session ids, descriptions and updated information are unchanged;
   an offer or answer carries the information given at connect time, whatever
   was updated since.
   */
  lemma {:induction false} RelayIsFaithful(limits: Limits, steps: seq<Step>, p: PeerId, m: ClientMessage, at: PeerId, h: Happening)
    ensures var s := Reach(limits, steps);
      && Relayed(s.log, p, m, at) <= Asked(s.log, p, m)
      && (!m.ClientUpdate? ==> RelayedAnywhere(s.log, p, m) <= Asked(s.log, p, m))
      && (h in s.log ==> RelaysTruly(s, h))
  {
    RelayInEveryRun(limits, steps);
    EveryRequestIsAccountedFor(limits, steps, p, m, at);
    if !m.ClientUpdate? {
      OnlyToTarget(Reach(limits, steps).log, p, m);
      EveryRequestIsAccountedFor(limits, steps, p, m, m.target);
    }
  }

  /** How often `m` was relayed in the name of `p`, over all queues. */
  function RelayedAnywhere(log: Log, p: PeerId, m: ClientMessage): nat {
    if log == [] then 0
    else RelayedAnywhere(Front(log), p, m) + if Last(log).Queued? && Relays(Last(log), p, m, Last(log).at) then 1 else 0
  }

  lemma {:induction false} OnlyToTarget(log: Log, p: PeerId, m: ClientMessage)
    requires !m.ClientUpdate?
    ensures RelayedAnywhere(log, p, m) == Relayed(log, p, m, m.target)
  {
    if log != [] {
      OnlyToTarget(Front(log), p, m);
    }
  }

  /** In particular, whatever offer, answer or update is queued in the name of a peer was asked for by it. */
  lemma {:induction false} NothingIsMadeUp(limits: Limits, steps: seq<Step>, at: PeerId, m: ServerMessage)
    requires Queued(at, m) in Reach(limits, steps).log && IsRelay(m)
    ensures Asked(Reach(limits, steps).log, Subject(m).id, Request(at, m)) >= 1
  {
    var log, p := Reach(limits, steps).log, Subject(m).id;
    RelayIsFaithful(limits, steps, p, Request(at, m), at, Queued(at, m));
    RelayedIsThere(log, at, m);
  }

  lemma {:induction false} RelayedIsThere(log: Log, at: PeerId, m: ServerMessage)
    requires Queued(at, m) in log && IsRelay(m)
    ensures Relayed(log, Subject(m).id, Request(at, m), at) >= 1
  {
    if Last(log) != Queued(at, m) {
      RelayedIsThere(Front(log), at, m);
    }
  }

  // A request that meets no obstacle

  /** A served peer's reader, with both locks free and requests to spare. */
  predicate Ready(limits: Limits, s: State, p: PeerId) {
    && p in s.conns && s.conns[p].reader.Listening? && s.roomsLock.None? && s.countLock.None?
    && CountOf(s.counts, s.conns[p].group) < limits.maxRequests
  }

  function Received(limits: Limits, s: State, p: PeerId, m: ClientMessage): State {
    Do(limits, Do(limits, Do(limits, s, Hear(p, m)), Lock(Reader(p))), Act(Reader(p)))
  }

  lemma {:induction false} RequestIsAccepted(limits: Limits, s: State, p: PeerId, m: ClientMessage)
    requires Ready(limits, s, p)
    ensures var v, c := Received(limits, s, p, m), s.conns[p];
      && v.rooms == s.rooms && v.roomsLock.None? && v.countLock.None?
      && v.log == s.log + [Counted(c.group, Reader(p)), Heard(p, c.group, m)]
      && p in v.conns && v.conns[p] == c.(reader := WantsRooms(m))
  {
    assert s.log + [Counted(s.conns[p].group, Reader(p))] + [Heard(p, s.conns[p].group, m)]
        == s.log + [Counted(s.conns[p].group, Reader(p)), Heard(p, s.conns[p].group, m)];
  }

  lemma {:induction false} OfferIsLookedUp(limits: Limits, s: State, p: PeerId, m: ClientMessage)
    requires p in s.conns && s.conns[p].reader == WantsRooms(m) && s.roomsLock.None? && !m.ClientUpdate?
    ensures var v, c := Do(limits, Do(limits, s, Lock(Reader(p))), Act(Reader(p))), s.conns[p];
      && v.log == s.log && v.roomsLock.None?
      && p in v.conns && v.conns[p] == c.(reader := Spreading(m, if m.target in RoomOf(s.rooms, c.group) then {m.target} else {}))
  {
  }

  lemma {:induction false} OfferIsTold(limits: Limits, s: State, p: PeerId, m: ClientMessage)
    requires !m.ClientUpdate? && p in s.conns && s.conns[p].reader == Spreading(m, {m.target})
    ensures var v, c := Do(limits, Do(limits, s, Deliver(Reader(p), m.target)), Act(Reader(p))), s.conns[p];
      var sdp := WsServerSdpMessage(WithId(c.info, p), m.sessionId, m.sdp);
      && p in v.conns && v.conns[p].reader.Listening?
      && v.log == s.log + [Queued(m.target, if m.ClientOffer? then Offer(sdp) else Answer(sdp))]
  {
    var told := Do(limits, s, Deliver(Reader(p), m.target));
    assert {m.target} - {m.target} == {};
    StepOnConn(limits, s, Deliver(Reader(p), m.target), p);
    StepOnLog(limits, s, Deliver(Reader(p), m.target));
    StepOnConn(limits, told, Act(Reader(p)), p);
    StepOnLog(limits, told, Act(Reader(p)));
    assert told.log + [] == told.log;
  }

  /** An offer or answer that meets no obstacle, and whose target is there, is queued at the target, and the reader listens again. */
  lemma {:induction false} OfferArrives(limits: Limits, s: State, p: PeerId, m: ClientMessage)
    requires Ready(limits, s, p) && !m.ClientUpdate? && m.target in RoomOf(s.rooms, s.conns[p].group)
    ensures var c := s.conns[p];
      var found := Do(limits, Do(limits, Received(limits, s, p, m), Lock(Reader(p))), Act(Reader(p)));
      var v := Do(limits, Do(limits, found, Deliver(Reader(p), m.target)), Act(Reader(p)));
      var sdp := WsServerSdpMessage(WithId(c.info, p), m.sessionId, m.sdp);
      && p in v.conns && v.conns[p].reader.Listening?
      && v.log == s.log + [Counted(c.group, Reader(p)), Heard(p, c.group, m)] + [Queued(m.target, if m.ClientOffer? then Offer(sdp) else Answer(sdp))]
  {
    var received := Received(limits, s, p, m);
    var found := Do(limits, Do(limits, received, Lock(Reader(p))), Act(Reader(p)));
    RequestIsAccepted(limits, s, p, m);
    OfferIsLookedUp(limits, received, p, m);
    OfferIsTold(limits, found, p, m);
  }

  /** A request beyond the limit is not accepted: the peer is told so, and its reader ends. */
  lemma {:induction false} RequestIsRefused(limits: Limits, s: State, p: PeerId, m: ClientMessage)
    requires p in s.conns && s.conns[p].reader == ReaderCounting(m) && CountOf(s.counts, s.conns[p].group) >= limits.maxRequests
    ensures var v := Do(limits, Do(limits, s, Act(Reader(p))), Deliver(Reader(p), p));
      && v.rooms == s.rooms && (forall g :: CountOf(v.counts, g) == CountOf(s.counts, g))
      && v.log == s.log + [Queued(p, Refusal(429))]
      && p in v.conns && v.conns[p] == s.conns[p].(reader := Over)
  {
  }
}
