/** The client's dispatch of answers to the callbacks that wait for them. */
module Answers {
  import opened Prelude
  import opened Model
  import opened Channel

  /** A callback is known by its registration. */
  type Callback = nat

  datatype Firing = Firing(callback: Callback, sdp: WsServerSdpMessage)

  /** What happens to the callbacks, in the order in which their lock is taken. */
  datatype Occurrence = OnAnswer(sessionId: string, callback: Callback) | Incoming(message: WsServerMessage)

  datatype Dispatch = Dispatch(waiting: map<string, Callback>, fired: seq<Firing>, forwarded: seq<WsServerMessage>)

  const IDLE: Dispatch := Dispatch(map[], [], [])

  function Registered(d: Dispatch, sessionId: string, callback: Callback): Dispatch {
    d.(waiting := d.waiting[sessionId := callback])
  }

  function Dispatched(d: Dispatch, m: WsServerMessage): Dispatch {
    if m.WsAnswer? && m.sdp.sessionId in d.waiting then
      Dispatch(d.waiting - {m.sdp.sessionId}, d.fired + [Firing(d.waiting[m.sdp.sessionId], m.sdp)], d.forwarded + [m])
    else d.(forwarded := d.forwarded + [m])
  }

  function After(os: seq<Occurrence>): Dispatch {
    if os == [] then IDLE
    else
      var d := After(os[..|os| - 1]);
      match os[|os| - 1]
      case OnAnswer(sessionId, callback) => Registered(d, sessionId, callback)
      case Incoming(m) => Dispatched(d, m)
  }

  function DispatchAll(d: Dispatch, ms: seq<WsServerMessage>): Dispatch
    decreases |ms|
  {
    if ms == [] then d else DispatchAll(Dispatched(d, ms[0]), ms[1..])
  }

  class ManagedSignalingConnection {
    var onAnswer: map<string, Callback>
    var fired: seq<Firing>

    constructor ()
      ensures onAnswer == map[] && fired == []
    {
      onAnswer := map[];
      fired := [];
    }

    method OnAnswer(sessionId: string, callback: Callback)
      modifies this`onAnswer
      ensures onAnswer == old(onAnswer)[sessionId := callback]
    {
      onAnswer := onAnswer[sessionId := callback];
    }

    /** The listener's loop, undisturbed by registrations. */
    method StartListener(rx: Receiver<WsServerMessage>) returns (forwarded: seq<WsServerMessage>)
      modifies this, rx
      ensures Dispatch(onAnswer, fired, forwarded) == DispatchAll(Dispatch(old(onAnswer), old(fired), []), old(rx.queue))
      ensures rx.queue == [] && forwarded == old(rx.queue)
    {
      forwarded := [];
      ghost var all := rx.queue;
      ghost var goal := DispatchAll(Dispatch(onAnswer, fired, forwarded), rx.queue);
      while true
        invariant goal == DispatchAll(Dispatch(onAnswer, fired, forwarded), rx.queue)
        invariant all == forwarded + rx.queue
        decreases |rx.queue|
      {
        ghost var before, later := forwarded, rx.queue[if rx.queue == [] then 0 else 1..];
        var message := rx.Recv();
        if message.None? {
          assert forwarded + [] == forwarded;
          break;
        }
        assert before + ([message.value] + later) == before + [message.value] + later;
        if message.value.WsAnswer? && message.value.sdp.sessionId in onAnswer {
          var callback := onAnswer[message.value.sdp.sessionId];
          onAnswer := onAnswer - {message.value.sdp.sessionId};
          fired := fired + [Firing(callback, message.value.sdp)];
        }
        forwarded := forwarded + [message.value];
      }
    }
  }

  function Incomings(ms: seq<WsServerMessage>): seq<Occurrence> {
    if ms == [] then [] else [Incoming(ms[0])] + Incomings(ms[1..])
  }

  lemma {:induction false} OneMoreIncoming(os: seq<Occurrence>, m: WsServerMessage)
    ensures After(os + [Incoming(m)]) == Dispatched(After(os), m)
  {
    assert (os + [Incoming(m)])[..|os|] == os;
  }

  /** Between two registrations, the occurrences are one stretch of the listener's loop. */
  lemma {:induction false} ListenerStretch(os: seq<Occurrence>, ms: seq<WsServerMessage>)
    ensures After(os + Incomings(ms)) == DispatchAll(After(os), ms)
    decreases |ms|
  {
    if ms == [] {
      assert os + Incomings(ms) == os;
    } else {
      var next := os + [Incoming(ms[0])];
      OneMoreIncoming(os, ms[0]);
      Associative(os, [Incoming(ms[0])], Incomings(ms[1..]));
      ListenerStretch(next, ms[1..]);
    }
  }

  // Which callbacks fire, and when

  predicate Concerns(o: Occurrence, sessionId: string) {
    match o
    case OnAnswer(id, _) => id == sessionId
    case Incoming(m) => m.WsAnswer? && m.sdp.sessionId == sessionId
  }

  /** The callback that waits for a session: the last thing that concerned it was its registration. */
  function WaitingFor(os: seq<Occurrence>, sessionId: string): Option<Callback> {
    if os == [] then None
    else
      var o := os[|os| - 1];
      if Concerns(o, sessionId) then if o.OnAnswer? then Some(o.callback) else None
      else WaitingFor(os[..|os| - 1], sessionId)
  }

  /** What fires at the end of `os`. */
  function FiresLast(os: seq<Occurrence>): seq<Firing>
    requires os != []
  {
    var o, before := os[|os| - 1], os[..|os| - 1];
    if o.Incoming? && o.message.WsAnswer? && WaitingFor(before, o.message.sdp.sessionId).Some? then
      [Firing(WaitingFor(before, o.message.sdp.sessionId).value, o.message.sdp)]
    else []
  }

  function Firings(os: seq<Occurrence>): seq<Firing> {
    if os == [] then [] else Firings(os[..|os| - 1]) + FiresLast(os)
  }

  lemma {:induction false} WaitingLooksBack(os: seq<Occurrence>, sessionId: string)
    ensures WaitingFor(os, sessionId) ==
      if sessionId in After(os).waiting then Some(After(os).waiting[sessionId]) else None
  {
    if os != [] {
      WaitingLooksBack(os[..|os| - 1], sessionId);
    }
  }

  /** Exactly those callbacks fire whose registration was the last thing to concern the session when its answer came. */
  lemma {:induction false} FiringsLookBack(os: seq<Occurrence>)
    ensures After(os).fired == Firings(os)
  {
    if os != [] {
      var o, before := os[|os| - 1], os[..|os| - 1];
      FiringsLookBack(before);
      if o.Incoming? && o.message.WsAnswer? {
        WaitingLooksBack(before, o.message.sdp.sessionId);
      }
      assert Firings(before) + [] == Firings(before);
    }
  }

  /** The messages that came in. */
  function Messages(os: seq<Occurrence>): seq<WsServerMessage> {
    if os == [] then [] else Messages(os[..|os| - 1]) + if os[|os| - 1].Incoming? then [os[|os| - 1].message] else []
  }

  /** Every message is forwarded, answers included, in the order in which they came. */
  lemma {:induction false} AllIsForwarded(os: seq<Occurrence>)
    ensures After(os).forwarded == Messages(os)
  {
    if os != [] {
      AllIsForwarded(os[..|os| - 1]);
      assert Messages(os[..|os| - 1]) + [] == Messages(os[..|os| - 1]);
    }
  }

  /** Each registration brings a callback of its own. */
  ghost predicate OwnCallbacks(os: seq<Occurrence>) {
    forall i, j :: 0 <= i < j < |os| && os[i].OnAnswer? && os[j].OnAnswer? ==> os[i].callback != os[j].callback
  }

  function CountFired(fired: seq<Firing>, callback: Callback): nat {
    if fired == [] then 0
    else CountFired(fired[..|fired| - 1], callback) + if fired[|fired| - 1].callback == callback then 1 else 0
  }

  lemma {:induction false} CountOneMore(fired: seq<Firing>, f: Firing, callback: Callback)
    ensures CountFired(fired + [f], callback) == CountFired(fired, callback) + if f.callback == callback then 1 else 0
  {
    assert (fired + [f])[..|fired|] == fired;
  }

  predicate WasRegistered(os: seq<Occurrence>, callback: Callback) {
    exists i :: 0 <= i < |os| && os[i].OnAnswer? && os[i].callback == callback
  }

  lemma {:induction false} OwnBefore(os: seq<Occurrence>)
    requires os != [] && OwnCallbacks(os)
    ensures var o, before := os[|os| - 1], os[..|os| - 1];
      OwnCallbacks(before) && (o.OnAnswer? ==> !WasRegistered(before, o.callback))
  {
    var before := os[..|os| - 1];
    assert forall i :: 0 <= i < |before| ==> before[i] == os[i];
  }

  lemma {:induction false} RegisteredStays(os: seq<Occurrence>, callback: Callback)
    requires os != []
    ensures WasRegistered(os[..|os| - 1], callback) ==> WasRegistered(os, callback)
    ensures os[|os| - 1].OnAnswer? ==> WasRegistered(os, os[|os| - 1].callback)
  {
    var before := os[..|os| - 1];
    if WasRegistered(before, callback) {
      var i :| 0 <= i < |before| && before[i].OnAnswer? && before[i].callback == callback;
      assert os[i] == before[i];
    }
  }

  /** A callback is waiting, or has fired, at most once in all, and not before it is registered. */
  lemma {:induction false} FiredOrWaiting(os: seq<Occurrence>, callback: Callback, sessionId: string)
    requires OwnCallbacks(os)
    ensures CountFired(Firings(os), callback) + (if WaitingFor(os, sessionId) == Some(callback) then 1 else 0) <= 1
    ensures CountFired(Firings(os), callback) > 0 || WaitingFor(os, sessionId) == Some(callback) ==> WasRegistered(os, callback)
  {
    if os != [] {
      var o, before := os[|os| - 1], os[..|os| - 1];
      OwnBefore(os);
      RegisteredStays(os, callback);
      FiredOrWaiting(before, callback, sessionId);
      if o.Incoming? && o.message.WsAnswer? {
        forall id | WaitingFor(before, id) == Some(callback)
          ensures CountFired(Firings(before), callback) == 0 && WasRegistered(before, callback)
        {
          FiredOrWaiting(before, callback, id);
        }
        assert StillToFire(before, callback);
        AnswerFires(os, callback, sessionId);
      } else {
        assert Firings(os) == Firings(before);
      }
    }
  }

  /** A callback that is waiting was registered and did not fire yet. */
  ghost predicate StillToFire(os: seq<Occurrence>, callback: Callback) {
    forall id :: WaitingFor(os, id) == Some(callback) ==> CountFired(Firings(os), callback) == 0 && WasRegistered(os, callback)
  }

  lemma {:induction false} AnswerFires(os: seq<Occurrence>, callback: Callback, sessionId: string)
    requires os != [] && os[|os| - 1].Incoming? && os[|os| - 1].message.WsAnswer? && OwnCallbacks(os[..|os| - 1])
    requires var before := os[..|os| - 1];
      && CountFired(Firings(before), callback) + (if WaitingFor(before, sessionId) == Some(callback) then 1 else 0) <= 1
      && (CountFired(Firings(before), callback) > 0 || WaitingFor(before, sessionId) == Some(callback) ==> WasRegistered(before, callback))
    requires StillToFire(os[..|os| - 1], callback)
    ensures CountFired(Firings(os), callback) + (if WaitingFor(os, sessionId) == Some(callback) then 1 else 0) <= 1
    ensures CountFired(Firings(os), callback) > 0 || WaitingFor(os, sessionId) == Some(callback) ==> WasRegistered(os[..|os| - 1], callback)
  {
    var o, before := os[|os| - 1], os[..|os| - 1];
    var fires := FiresLast(os);
    if fires == [] {
      assert Firings(os) == Firings(before);
    } else {
      CountOneMore(Firings(before), fires[0], callback);
      assert Firings(os) == Firings(before) + [fires[0]];
      SessionIsOwn(before, callback, sessionId, o.message.sdp.sessionId);
    }
  }

  lemma {:induction false} WaitingWasRegistered(os: seq<Occurrence>, sessionId: string) returns (i: nat)
    requires WaitingFor(os, sessionId).Some?
    ensures i < |os| && os[i] == OnAnswer(sessionId, WaitingFor(os, sessionId).value)
  {
    var o := os[|os| - 1];
    if Concerns(o, sessionId) {
      i := |os| - 1;
    } else {
      i := WaitingWasRegistered(os[..|os| - 1], sessionId);
    }
  }

  /** A callback waits for one session only. */
  lemma {:induction false} SessionIsOwn(os: seq<Occurrence>, callback: Callback, x: string, y: string)
    requires OwnCallbacks(os)
    ensures WaitingFor(os, x) == Some(callback) && WaitingFor(os, y) == Some(callback) ==> x == y
  {
    if WaitingFor(os, x) == Some(callback) && WaitingFor(os, y) == Some(callback) {
      var i := WaitingWasRegistered(os, x);
      var j := WaitingWasRegistered(os, y);
      assert i == j;
    }
  }

  lemma {:induction false} FiringWasRegistered(os: seq<Occurrence>, f: Firing) returns (i: nat)
    requires f in Firings(os)
    ensures i < |os| && os[i] == OnAnswer(f.sdp.sessionId, f.callback)
  {
    var before := os[..|os| - 1];
    if f in FiresLast(os) {
      i := WaitingWasRegistered(before, f.sdp.sessionId);
    } else {
      i := FiringWasRegistered(before, f);
    }
  }

  /** A callback fires at most once, and only for the session it was registered for. */
  lemma {:induction false} FiresOnceForItsSession(os: seq<Occurrence>, callback: Callback, f: Firing)
    requires OwnCallbacks(os)
    ensures CountFired(After(os).fired, callback) <= 1
    ensures f in After(os).fired ==> OnAnswer(f.sdp.sessionId, f.callback) in os
  {
    FiringsLookBack(os);
    FiredOrWaiting(os, callback, "");
    if f in After(os).fired {
      var i := FiringWasRegistered(os, f);
      assert os[i] in os;
    }
  }

  /** An answer that comes before its callback is registered is lost: the callback does not fire for it. */
  lemma {:induction false} EarlyAnswerIsLost(before: seq<Occurrence>, sdp: WsServerSdpMessage, callback: Callback)
    requires OwnCallbacks(before + [Incoming(WsAnswer(sdp))] + [OnAnswer(sdp.sessionId, callback)])
    ensures var os := before + [Incoming(WsAnswer(sdp))] + [OnAnswer(sdp.sessionId, callback)];
      CountFired(After(os).fired, callback) == 0 && After(os).waiting[sdp.sessionId] == callback
  {
    var os := before + [Incoming(WsAnswer(sdp))] + [OnAnswer(sdp.sessionId, callback)];
    FiringsLookBack(os);
    FiredOrWaiting(os, callback, sdp.sessionId);
    WaitingLooksBack(os, sdp.sessionId);
  }
}
