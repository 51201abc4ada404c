/**
 The two nonce caches of one side, behind a lock each. Every exchange locks
 the received nonces, stores one, and keeps that lock while it locks the
 generated nonces and stores the other.
 */
module NonceCaches {
  import opened Prelude
  import opened LruCache
  import Base64

  type TaskId = nat

  datatype Pc =
    | WantsReceived
    | HoldsReceived       // nothing stored yet
    | WantsGenerated      // one nonce stored
    | HoldsBoth
    | Stored
    | Finished

  datatype Job = Job(key: string, received: bytes, generated: bytes, pc: Pc)

  datatype Caches = Caches(received: Lru, generated: Lru, receivedLock: Option<TaskId>, generatedLock: Option<TaskId>, jobs: map<TaskId, Job>)

  const FRESH: Caches := Caches([], [], None, None, map[])

  datatype Step = Begin(task: TaskId, key: string, received: bytes, generated: bytes) | Advance(task: TaskId)

  function At(s: Caches, t: TaskId, pc: Pc): Caches
    requires t in s.jobs
  {
    s.(jobs := s.jobs[t := s.jobs[t].(pc := pc)])
  }

  function DoAdvance(s: Caches, t: TaskId): Caches {
    if t !in s.jobs then s
    else
      var j := s.jobs[t];
      match j.pc
      case WantsReceived => if s.receivedLock.None? then At(s, t, HoldsReceived).(receivedLock := Some(t)) else s
      case HoldsReceived => At(s, t, WantsGenerated).(received := Put(s.received, j.key, j.received))
      case WantsGenerated => if s.generatedLock.None? then At(s, t, HoldsBoth).(generatedLock := Some(t)) else s
      case HoldsBoth => At(s, t, Stored).(generated := Put(s.generated, j.key, j.generated))
      case Stored => At(s, t, Finished).(receivedLock := None, generatedLock := None)
      case Finished => s
  }

  function Do(s: Caches, step: Step): Caches {
    match step
    case Begin(t, key, received, generated) =>
      if t in s.jobs then s else s.(jobs := s.jobs[t := Job(key, received, generated, WantsReceived)])
    case Advance(t) => DoAdvance(s, t)
  }

  function Reach(steps: seq<Step>): Caches {
    if steps == [] then FRESH else Do(Reach(steps[..|steps| - 1]), steps[|steps| - 1])
  }

  predicate Inside(pc: Pc) {
    pc.HoldsReceived? || pc.WantsGenerated? || pc.HoldsBoth? || pc.Stored?
  }

  ghost predicate JobAgrees(s: Caches, t: TaskId) {
    && (s.receivedLock == Some(t) <==> t in s.jobs && Inside(s.jobs[t].pc))
    && (s.generatedLock == Some(t) <==> t in s.jobs && (s.jobs[t].pc.HoldsBoth? || s.jobs[t].pc.Stored?))
  }

  /** A nonce has been stored in the one cache and not yet in the other. */
  predicate Halfway(s: Caches) {
    s.receivedLock.Some? && s.receivedLock.value in s.jobs
    && (s.jobs[s.receivedLock.value].pc.WantsGenerated? || s.jobs[s.receivedLock.value].pc.HoldsBoth?)
  }

  ghost predicate KeysAgree(s: Caches) {
    && Keys(s.received) == (if Halfway(s) then PutKey(Keys(s.generated), s.jobs[s.receivedLock.value].key) else Keys(s.generated))
    && Distinct(Keys(s.generated)) && |s.generated| <= CAPACITY
  }

  ghost predicate InStep(s: Caches) {
    (forall t :: JobAgrees(s, t)) && KeysAgree(s)
  }

  lemma {:induction false} StepKeepsJob(s: Caches, step: Step, t: TaskId)
    requires JobAgrees(s, t) && JobAgrees(s, step.task)
    ensures JobAgrees(Do(s, step), t)
  {
  }

  lemma {:induction false} StepKeepsKeys(s: Caches, step: Step)
    requires KeysAgree(s) && (forall t :: JobAgrees(s, t))
    ensures KeysAgree(Do(s, step))
  {
    var t := step.task;
    assert JobAgrees(s, t);
    if step.Advance? && t in s.jobs {
      var j := s.jobs[t];
      if j.pc.HoldsReceived? {
        KeysOfPut(s.received, j.key, j.received);
      } else if j.pc.HoldsBoth? {
        KeysOfPut(s.generated, j.key, j.generated);
        PutKeyMeans(Keys(s.generated), j.key);
      }
    }
    if s.receivedLock.Some? {
      assert JobAgrees(s, s.receivedLock.value);
    }
  }

  lemma {:induction false} EveryRunInStep(steps: seq<Step>)
    ensures InStep(Reach(steps))
  {
    if steps != [] {
      var before, step := steps[..|steps| - 1], steps[|steps| - 1];
      var s := Reach(before);
      EveryRunInStep(before);
      forall t ensures JobAgrees(Do(s, step), t) {
        assert JobAgrees(s, t) && JobAgrees(s, step.task);
        StepKeepsJob(s, step, t);
      }
      StepKeepsKeys(s, step);
    }
  }

  /**
   In every interleaving of exchanges: whenever the received nonces are not
   locked, both caches hold the same keys in the same order of use, none twice
   and no more than the capacity. So they always forget the same key.
   */
  lemma {:induction false} CachesStayInStep(steps: seq<Step>)
    ensures var s := Reach(steps);
      && (s.receivedLock.None? ==> Keys(s.received) == Keys(s.generated))
      && Distinct(Keys(s.received)) && Distinct(Keys(s.generated))
      && |s.received| <= 200 && |s.generated| <= 200
  {
    var s := Reach(steps);
    EveryRunInStep(steps);
    if Halfway(s) {
      PutKeyMeans(Keys(s.generated), s.jobs[s.receivedLock.value].key);
    }
  }

  /** An exchange that is inside can always go on: the second lock is free for it. */
  lemma {:induction false} InsideGoesOn(steps: seq<Step>, t: TaskId)
    requires var s := Reach(steps); s.receivedLock == Some(t) || s.generatedLock == Some(t)
    ensures Do(Reach(steps), Advance(t)) != Reach(steps)
  {
    var s := Reach(steps);
    EveryRunInStep(steps);
    assert JobAgrees(s, t);
    if s.generatedLock.Some? {
      assert JobAgrees(s, s.generatedLock.value);
    }
    assert DoAdvance(s, t).jobs[t].pc != s.jobs[t].pc;
  }

  /** An exchange that meets no other gets both locks, stores both nonces and gives the locks back. */
  lemma {:induction false} Undisturbed(s: Caches, t: TaskId, key: string, received: bytes, generated: bytes)
    requires t !in s.jobs && s.receivedLock.None? && s.generatedLock.None?
    ensures var begun := Do(s, Begin(t, key, received, generated));
      var halfway := Do(Do(begun, Advance(t)), Advance(t));
      var v := Do(Do(Do(halfway, Advance(t)), Advance(t)), Advance(t));
      && halfway.received == Put(s.received, key, received) && halfway.generated == s.generated
      && v.received == Put(s.received, key, received) && v.generated == Put(s.generated, key, generated)
      && v.receivedLock.None? && v.generatedLock.None?
      && t in v.jobs && v.jobs[t] == Job(key, received, generated, Finished)
  {
    var begun := Do(s, Begin(t, key, received, generated));
    var inside := Do(begun, Advance(t));
    assert inside.jobs[t].pc == HoldsReceived && inside.receivedLock == Some(t);
    var halfway := Do(inside, Advance(t));
    assert halfway.jobs[t].pc == WantsGenerated;
    var both := Do(halfway, Advance(t));
    assert both.jobs[t].pc == HoldsBoth;
    var stored := Do(both, Advance(t));
    assert stored.jobs[t].pc == Pc.Stored;
  }

  // One exchange at a time

  /** Both caches of one side. */
  datatype Twin = Twin(received: Lru, generated: Lru)

  const EMPTY_TWIN: Twin := Twin([], [])

  /** What an exchange undisturbed by others leaves. */
  function Keep(t: Twin, key: string, received: bytes, generated: bytes): Twin {
    Twin(Put(t.received, key, received), Put(t.generated, key, generated))
  }

  /** A job, with its number, once both its nonces are stored. */
  datatype Done = Done(task: TaskId, key: string, received: bytes, generated: bytes)

  predicate StoresLast(s: Caches, step: Step) {
    step.Advance? && step.task in s.jobs && s.jobs[step.task].pc.HoldsBoth?
  }

  /** The jobs in the order in which they store their last nonce. */
  function Completed(steps: seq<Step>): seq<Done> {
    if steps == [] then []
    else
      var before, step := steps[..|steps| - 1], steps[|steps| - 1];
      if StoresLast(Reach(before), step) then
        var j := Reach(before).jobs[step.task];
        Completed(before) + [Done(step.task, j.key, j.received, j.generated)]
      else Completed(before)
  }

  /** The caches after these jobs, one after the other. */
  function OneAfterTheOther(ds: seq<Done>): Twin {
    if ds == [] then EMPTY_TWIN
    else
      var d := ds[|ds| - 1];
      Keep(OneAfterTheOther(ds[..|ds| - 1]), d.key, d.received, d.generated)
  }

  lemma {:induction false} OneMore(ds: seq<Done>, d: Done)
    ensures OneAfterTheOther(ds + [d]) == Keep(OneAfterTheOther(ds), d.key, d.received, d.generated)
  {
    assert (ds + [d])[..|ds|] == ds;
  }

  ghost predicate CachesAre(s: Caches, t: Twin) {
    && s.generated == t.generated
    && s.received == if Halfway(s) then
        Put(t.received, s.jobs[s.receivedLock.value].key, s.jobs[s.receivedLock.value].received)
      else t.received
  }

  lemma {:induction false} StepKeepsTwin(s: Caches, step: Step, t: Twin)
    requires CachesAre(s, t) && (forall x :: JobAgrees(s, x))
    ensures CachesAre(Do(s, step), if StoresLast(s, step) then
        Keep(t, s.jobs[step.task].key, s.jobs[step.task].received, s.jobs[step.task].generated) else t)
  {
    assert JobAgrees(s, step.task);
    if s.receivedLock.Some? {
      assert JobAgrees(s, s.receivedLock.value);
    }
  }

  lemma {:induction false} TwinInEveryRun(steps: seq<Step>)
    ensures CachesAre(Reach(steps), OneAfterTheOther(Completed(steps)))
  {
    if steps != [] {
      var before, step := steps[..|steps| - 1], steps[|steps| - 1];
      var s := Reach(before);
      TwinInEveryRun(before);
      EveryRunInStep(before);
      StepKeepsTwin(s, step, OneAfterTheOther(Completed(before)));
      if StoresLast(s, step) {
        var j := s.jobs[step.task];
        OneMore(Completed(before), Done(step.task, j.key, j.received, j.generated));
      }
    }
  }

  function Times(ds: seq<Done>, t: TaskId): nat {
    if ds == [] then 0 else Times(ds[..|ds| - 1], t) + if ds[|ds| - 1].task == t then 1 else 0
  }

  predicate IsStored(s: Caches, t: TaskId) {
    t in s.jobs && (s.jobs[t].pc.Stored? || s.jobs[t].pc.Finished?)
  }

  lemma {:induction false} StepOnStored(s: Caches, step: Step, t: TaskId)
    ensures IsStored(Do(s, step), t) <==> IsStored(s, t) || (StoresLast(s, step) && step.task == t)
    ensures StoresLast(s, step) ==> !IsStored(s, step.task)
    ensures t in s.jobs ==> t in Do(s, step).jobs && Do(s, step).jobs[t] == s.jobs[t].(pc := Do(s, step).jobs[t].pc)
  {
  }

  /** A job is completed once, when both its nonces are stored. */
  lemma {:induction false} CompletedOnce(steps: seq<Step>, t: TaskId)
    ensures Times(Completed(steps), t) == if IsStored(Reach(steps), t) then 1 else 0
  {
    if steps != [] {
      var before, step := steps[..|steps| - 1], steps[|steps| - 1];
      CompletedOnce(before, t);
      StepOnStored(Reach(before), step, t);
      if StoresLast(Reach(before), step) {
        assert Completed(steps)[..|Completed(steps)| - 1] == Completed(before);
      }
    }
  }

  predicate IsJob(s: Caches, d: Done) {
    d.task in s.jobs && s.jobs[d.task] == Job(d.key, d.received, d.generated, s.jobs[d.task].pc)
  }

  /** It is completed with its own key and nonces. */
  lemma {:induction false} CompletedAsBegun(steps: seq<Step>, d: Done)
    requires d in Completed(steps)
    ensures IsJob(Reach(steps), d)
  {
    var before, step := steps[..|steps| - 1], steps[|steps| - 1];
    if d in Completed(before) {
      CompletedAsBegun(before, d);
    }
    StepOnStored(Reach(before), step, d.task);
  }

  /**
   In every interleaving: whenever the received nonces are not locked, the
   caches are as if the completed jobs had been done one after the other, each
   of them once, undisturbed, and with the key and nonces it began with.
   */
  lemma {:induction false} ExchangesAreAtomic(steps: seq<Step>, t: TaskId)
    ensures var s, done := Reach(steps), Completed(steps);
      && (s.receivedLock.None? ==> Twin(s.received, s.generated) == OneAfterTheOther(done))
      && Times(done, t) == (if IsStored(s, t) then 1 else 0)
      && forall d :: d in done ==> IsJob(s, d)
  {
    TwinInEveryRun(steps);
    CompletedOnce(steps, t);
    forall d | d in Completed(steps) ensures IsJob(Reach(steps), d) {
      CompletedAsBegun(steps, d);
    }
  }

  // The two sides as the program runs them

  predicate ValidNonce(nonce: bytes) {
    16 <= |nonce| <= 128
  }

  datatype Answer = Granted(nonce: string) | BadRequest(reason: string)

  /** The caches of the server, or of the client. */
  class NonceMaps {
    var receivedNonceMap: Lru
    var generatedNonceMap: Lru

    constructor ()
      ensures receivedNonceMap == [] && generatedNonceMap == []
    {
      receivedNonceMap := [];
      generatedNonceMap := [];
    }

    method Store(key: string, received: bytes, generated: bytes)
      modifies this
      ensures receivedNonceMap == Put(old(receivedNonceMap), key, received)
      ensures generatedNonceMap == Put(old(generatedNonceMap), key, generated)
    {
      receivedNonceMap := Put(receivedNonceMap, key, received);
      generatedNonceMap := Put(generatedNonceMap, key, generated);
    }

    /** The server's half: a nonce that is no text of 16 to 128 bytes changes nothing. */
    method NonceExchange(payload: string, key: string, newNonce: bytes) returns (answer: Answer)
      modifies this
      ensures var nonce := Base64.Decode(payload);
        if nonce.Some? && 16 <= |nonce.value| <= 128 then
          && answer == Granted(Base64.Encode(newNonce))
          && receivedNonceMap == Put(old(receivedNonceMap), key, nonce.value)
          && generatedNonceMap == Put(old(generatedNonceMap), key, newNonce)
        else
          answer.BadRequest? && receivedNonceMap == old(receivedNonceMap) && generatedNonceMap == old(generatedNonceMap)
    {
      var nonce := Base64.Decode(payload);
      if nonce.None? {
        return BadRequest("Invalid nonce format");
      }
      if !ValidNonce(nonce.value) {
        return BadRequest("Invalid nonce");
      }
      Store(key, nonce.value, newNonce);
      answer := Granted(Base64.Encode(newNonce));
    }

    /** The client's half, once the server has answered. */
    method Nonce(generated: bytes, answer: Answer, key: string) returns (ok: bool)
      modifies this
      ensures ok == (answer.Granted? && Base64.Decode(answer.nonce).Some?)
      ensures ok ==>
        && receivedNonceMap == Put(old(receivedNonceMap), key, Base64.Decode(answer.nonce).value)
        && generatedNonceMap == Put(old(generatedNonceMap), key, generated)
      ensures !ok ==> receivedNonceMap == old(receivedNonceMap) && generatedNonceMap == old(generatedNonceMap)
    {
      if answer.BadRequest? {
        return false;
      }
      var nonce := Base64.Decode(answer.nonce);
      if nonce.None? {
        return false;
      }
      Store(key, nonce.value, generated);
      ok := true;
    }
  }
}
