/** The PIN challenge: one side verifies, the other prompts its user. */
module Pin {
  import opened Prelude
  import opened Model
  import opened Channel
  import opened Protocol
  import opened Framing

  datatype VerifyPinResult = NoticeWanted | NoticeExceeded

  /** How a side puts a notice on the wire. */
  type Notify = VerifyPinResult -> seq<Message>

  /** What a side does to give its notices. */
  datatype Notices = Notices(wanted: seq<Doing>, exceeded: seq<Doing>)

  function NoticesOf(notify: Notify): Notices {
    Notices(SendAll(notify(NoticeWanted)), SendAll(notify(NoticeExceeded)) + [Announce(TooManyAttempts)])
  }

  /** A PIN is asked for before every attempt but the first, and before the first one if told so. */
  function Asking(n: Notices, tries: nat, notice: bool): seq<Doing> {
    if notice || tries > 0 then n.wanted else []
  }

  datatype Verification = Verification(ok: bool, effects: seq<Doing>, unread: seq<Message>)

  /** The verifying loop from the point where `remote` has been read and `tries` attempts are counted. */
  function Verify(json: Json, pin: PinConfig, n: Notices, remote: string, tries: nat, notice: bool, q: seq<Message>): (v: Verification)
    ensures |v.unread| <= |q|
    decreases if tries < pin.maxTries then pin.maxTries - tries else 0
  {
    if remote == pin.pin then Verification(true, [], q)
    else if tries >= pin.maxTries then Verification(false, n.exceeded, q)
    else
      var asked := Asking(n, tries, notice);
      if q == [] then Verification(false, asked, [])
      else match json.pin.parse(q[0].data)
        case None => Verification(false, asked, q[1..])
        case Some(next) =>
          var rest := Verify(json, pin, n, next, tries + 1, false, q[1..]);
          rest.(effects := asked + rest.effects)
  }

  method VerifyPin(json: Json, pin: PinConfig, journal: Journal<Event>, rx: Receiver<Message>, sendInitialNotice: bool, notify: Notify)
    returns (ok: bool)
    modifies journal, rx
    ensures var v := Verify(json, pin, NoticesOf(notify), "", 0, sendInitialNotice, old(rx.queue));
      && ok == v.ok && rx.queue == v.unread
      && journal.trace == old(journal.trace) + [Announce(PinRequired)] + v.effects
  {
    journal.Do(Announce(PinRequired));
    var remotePin := "";
    var pinTry: u8 := 0;
    var notice := sendInitialNotice;
    ghost var v := Verify(json, pin, NoticesOf(notify), remotePin, pinTry, notice, rx.queue);
    ghost var goal := Verification(v.ok, journal.trace + v.effects, v.unread);
    while true
      invariant pinTry <= pin.maxTries
      invariant v == Verify(json, pin, NoticesOf(notify), remotePin, pinTry, notice, rx.queue)
      invariant goal == Verification(v.ok, journal.trace + v.effects, v.unread)
      decreases pin.maxTries - pinTry
    {
      if remotePin == pin.pin {
        return true;
      }
      if pinTry >= pin.maxTries {
        SendMessages(journal, notify(NoticeExceeded));
        journal.Do(Announce(TooManyAttempts));
        return false;
      }
      ghost var before, asked := journal.trace, Asking(NoticesOf(notify), tries := pinTry, notice := notice);
      if notice || pinTry > 0 {
        notice := false;
        SendMessages(journal, notify(NoticeWanted));
      }
      assert journal.trace == before + asked;
      var message := rx.Recv();
      if message.None? {
        return false;
      }
      var parsed := json.pin.parse(message.value.data);
      if parsed.None? {
        return false;
      }
      remotePin := parsed.value;
      pinTry := pinTry + 1;
      v := Verify(json, pin, NoticesOf(notify), remotePin, pinTry, notice, rx.queue);
      Associative(before, asked, v.effects);
    }
  }

  method SendMessages(journal: Journal<Event>, ms: seq<Message>)
    modifies journal
    ensures journal.trace == old(journal.trace) + SendAll(ms)
  {
    ghost var goal := journal.trace + SendAll(ms);
    for i := 0 to |ms|
      invariant goal == journal.trace + SendAll(ms[i..])
    {
      assert ms[i..][1..] == ms[i + 1..];
      Associative(journal.trace, [Send(ms[i])], SendAll(ms[i + 1..]));
      journal.Do(Send(ms[i]));
    }
  }

  // What the loop amounts to on well-formed attempts

  /** The position of the first right attempt, or the number of attempts if none is right. */
  function FirstMatch(pins: seq<string>, pin: string): (k: nat)
    ensures k <= |pins| && (k < |pins| ==> pins[k] == pin)
    ensures forall i :: 0 <= i < k ==> pins[i] != pin
  {
    if pins == [] || pins[0] == pin then 0 else 1 + FirstMatch(pins[1..], pin)
  }

  /** The right PIN is among the attempts that are allowed. */
  predicate Guessed(pin: PinConfig, pins: seq<string>) {
    FirstMatch(pins, pin.pin) < |pins| && FirstMatch(pins, pin.pin) < pin.maxTries
  }

  lemma {:induction false} GuessedMeans(pin: PinConfig, pins: seq<string>)
    ensures Guessed(pin, pins) <==> exists i :: 0 <= i < |pins| && i < pin.maxTries && pins[i] == pin.pin
  {
    var k := FirstMatch(pins, pin.pin);
    if k < |pins| {
      assert pins[k] == pin.pin;
    }
  }

  function Min(a: nat, b: nat): nat {
    if a < b then a else b
  }

  function Repeated<E>(es: seq<Effect<E>>, n: nat): seq<Effect<E>> {
    if n == 0 then [] else es + Repeated(es, n - 1)
  }

  lemma {:induction false} OneMore(ask: seq<Doing>, n: nat, end: seq<Doing>)
    ensures ask + (Repeated(ask, n) + end) == Repeated(ask, n + 1) + end
  {
    Associative(ask, Repeated(ask, n), end);
  }

  ghost predicate Carries(json: Json, q: seq<Message>, pins: seq<string>) {
    |q| == |pins| && forall i :: 0 <= i < |q| ==> json.pin.parse(q[i].data) == Some(pins[i])
  }

  lemma {:induction false} VerifyReadsAFront(json: Json, pin: PinConfig, n: Notices, remote: string, tries: nat, notice: bool, q: seq<Message>)
    ensures var v := Verify(json, pin, n, remote, tries, notice, q);
      v.unread == q[|q| - |v.unread|..]
    decreases |q|
  {
    if remote != pin.pin && tries < pin.maxTries && q != [] && json.pin.parse(q[0].data).Some? {
      VerifyReadsAFront(json, pin, n, json.pin.parse(q[0].data).value, tries + 1, false, q[1..]);
    }
  }

  /** The verdict and how much was read, from any point at which a wrong PIN is held and more attempts are allowed. */
  lemma {:induction false} VerifyVerdict(json: Json, pin: PinConfig, n: Notices, remote: string, tries: nat, notice: bool,
                                         q: seq<Message>, pins: seq<string>)
    requires Carries(json, q, pins) && remote != pin.pin && tries < pin.maxTries
    ensures var v := Verify(json, pin, n, remote, tries, notice, q);
      var first, left := FirstMatch(pins, pin.pin), pin.maxTries - tries;
      && v.ok == (first < |pins| && first < left)
      && |v.unread| == |q| - Min(Min(first + 1, left), |pins|)
    decreases |pins|
  {
    if q != [] {
      assert json.pin.parse(q[0].data) == Some(pins[0]);
      if pins[0] != pin.pin && tries + 1 < pin.maxTries {
        VerifyVerdict(json, pin, n, pins[0], tries + 1, false, q[1..], pins[1..]);
      }
    }
  }

  /** The notices of a verification that still has `left` attempts and meets `pins`. */
  function Course(n: Notices, first: seq<Doing>, pins: seq<string>, pin: string, left: nat): seq<Doing>
    requires left > 0
  {
    var found := FirstMatch(pins, pin);
    first + (Repeated(n.wanted, Min(found + 1, left) - 1) + if (found < |pins| && found < left) || |pins| < left then [] else n.exceeded)
  }

  lemma {:induction false} CourseStep(n: Notices, first: seq<Doing>, pins: seq<string>, pin: string, left: nat)
    requires left > 1 && pins != [] && pins[0] != pin
    ensures Course(n, first, pins, pin, left) == first + Course(n, n.wanted, pins[1..], pin, left - 1)
  {
    var found := FirstMatch(pins[1..], pin);
    OneMore(n.wanted, Min(found + 1, left - 1) - 1,
      if (found < |pins[1..]| && found < left - 1) || |pins[1..]| < left - 1 then [] else n.exceeded);
  }

  /** The notices given on the way. */
  lemma {:induction false} VerifyCourse(json: Json, pin: PinConfig, n: Notices, remote: string, tries: nat, notice: bool,
                                        q: seq<Message>, pins: seq<string>)
    requires Carries(json, q, pins) && remote != pin.pin && tries < pin.maxTries
    ensures Verify(json, pin, n, remote, tries, notice, q).effects
         == Course(n, Asking(n, tries, notice), pins, pin.pin, pin.maxTries - tries)
    decreases |pins|
  {
    if q == [] {
      assert Asking(n, tries, notice) + ([] + []) == Asking(n, tries, notice);
    } else {
      assert json.pin.parse(q[0].data) == Some(pins[0]);
      if pins[0] == pin.pin || tries + 1 == pin.maxTries {
        assert Repeated(n.wanted, 0) == [] && [] + n.exceeded == n.exceeded;
      } else {
        VerifyCourse(json, pin, n, pins[0], tries + 1, false, q[1..], pins[1..]);
        CourseStep(n, Asking(n, tries, notice), pins, pin.pin, pin.maxTries - tries);
      }
    }
  }

  /** The end of an unsuccessful verification, if it comes to that. */
  function Ending(pin: PinConfig, n: Notices, pins: seq<string>): seq<Doing> {
    if Guessed(pin, pins) || |pins| < pin.maxTries then [] else n.exceeded
  }

  lemma {:induction false} VerifyWhole(json: Json, pin: PinConfig, n: Notices, remote: string, tries: nat, notice: bool, q: seq<Message>, pins: seq<string>)
    requires Carries(json, q, pins) && remote != pin.pin && tries == 0
    ensures var v := Verify(json, pin, n, remote, tries, notice, q);
      var waits := Min(FirstMatch(pins, pin.pin) + 1, pin.maxTries);
      && v.ok == Guessed(pin, pins)
      && |v.unread| == |q| - Min(waits, |pins|)
      && v.effects == Repeated(n.wanted, if notice || waits == 0 then waits else waits - 1) + Ending(pin, n, pins)
  {
    if pin.maxTries == 0 {
      assert Repeated(n.wanted, 0) == [];
    } else {
      VerifyVerdict(json, pin, n, remote, tries, notice, q, pins);
      VerifyCourse(json, pin, n, remote, tries, notice, q, pins);
      var waits := Min(FirstMatch(pins, pin.pin) + 1, pin.maxTries);
      OneMore(n.wanted, waits - 1, Ending(pin, n, pins));
    }
  }

  /**
   The challenge of a non-empty PIN on well-formed attempts is exact: it
   succeeds if and only if one of the first `maxTries` attempts is right; it
   reads up to the first right one, the limit or the end; and it sends one
   notice per attempt it waits for, the first being left out unless asked for.
   */
  lemma {:induction false} VerifyPinIsExact(json: Json, pin: PinConfig, n: Notices, notice: bool, q: seq<Message>, pins: seq<string>)
    requires Carries(json, q, pins) && pin.pin != ""
    ensures var v := Verify(json, pin, n, "", 0, notice, q);
      var waits := Min(FirstMatch(pins, pin.pin) + 1, pin.maxTries);
      && v.ok == Guessed(pin, pins)
      && |v.unread| == |q| - Min(waits, |pins|) && v.unread == q[Min(waits, |pins|)..]
      && v.effects == Repeated(n.wanted, if notice || waits == 0 then waits else waits - 1) + Ending(pin, n, pins)
  {
    VerifyWhole(json, pin, n, "", 0, notice, q, pins);
    VerifyReadsAFront(json, pin, n, "", 0, notice, q);
  }

  // What the loop amounts to on any messages

  /** The first `m` messages are attempts, no more than allowed, and the last of them is the first right one. */
  ghost predicate RightAfter(json: Json, pin: PinConfig, q: seq<Message>, allowed: int, m: nat) {
    && 1 <= m <= |q| && m <= allowed
    && (forall i :: 0 <= i < m - 1 ==> json.pin.parse(q[i].data).Some? && json.pin.parse(q[i].data).value != pin.pin)
    && json.pin.parse(q[m - 1].data) == Some(pin.pin)
  }

  lemma {:induction false} VerifyReads(json: Json, pin: PinConfig, n: Notices, remote: string, tries: nat, notice: bool, q: seq<Message>, m: nat)
    requires remote != pin.pin && RightAfter(json, pin, q, pin.maxTries - tries, m)
    ensures var v := Verify(json, pin, n, remote, tries, notice, q); v.ok && v.unread == q[m..]
    decreases m
  {
    if m > 1 {
      var next := json.pin.parse(q[0].data);
      assert next.Some? && next.value != pin.pin;
      assert forall i :: 0 <= i < m - 2 ==> q[1..][i] == q[i + 1];
      assert q[1..][m - 2] == q[m - 1];
      VerifyReads(json, pin, n, next.value, tries + 1, false, q[1..], m - 1);
      assert q[1..][m - 1..] == q[m..];
    } else if tries + 1 <= pin.maxTries {
      assert json.pin.parse(q[0].data) == Some(pin.pin);
    }
  }

  lemma {:induction false} VerifiedWasRight(json: Json, pin: PinConfig, n: Notices, remote: string, tries: nat, notice: bool, q: seq<Message>) returns (m: nat)
    requires remote != pin.pin && Verify(json, pin, n, remote, tries, notice, q).ok
    ensures RightAfter(json, pin, q, pin.maxTries - tries, m)
    decreases |q|
  {
    var next := json.pin.parse(q[0].data).value;
    if next == pin.pin {
      m := 1;
    } else {
      m := VerifiedWasRight(json, pin, n, next, tries + 1, false, q[1..]);
      assert forall i :: 0 < i < m ==> q[i] == q[1..][i - 1];
      assert q[m] == q[1..][m - 1];
      m := m + 1;
    }
  }

  /** On any messages: a non-empty PIN is verified if and only if a right attempt comes in time, after nothing but attempts, and what follows it stays unread. */
  lemma {:induction false} VerifiesIff(json: Json, pin: PinConfig, n: Notices, notice: bool, q: seq<Message>)
    requires pin.pin != ""
    ensures var v := Verify(json, pin, n, "", 0, notice, q);
      && (v.ok <==> exists m: nat :: RightAfter(json, pin, q, pin.maxTries, m))
      && (forall m: nat :: RightAfter(json, pin, q, pin.maxTries, m) ==> v.unread == q[m..])
  {
    if Verify(json, pin, n, "", 0, notice, q).ok {
      var m := VerifiedWasRight(json, pin, n, "", 0, notice, q);
    }
    forall m: nat | RightAfter(json, pin, q, pin.maxTries, m)
      ensures Verify(json, pin, n, "", 0, notice, q).ok && Verify(json, pin, n, "", 0, notice, q).unread == q[m..]
    {
      VerifyReads(json, pin, n, "", 0, notice, q, m);
    }
  }

  /** Only an empty PIN is taken as given, without reading anything. */
  lemma {:induction false} EmptyPinReadsNothing(json: Json, pin: PinConfig, n: Notices, notice: bool, q: seq<Message>)
    ensures var v := Verify(json, pin, n, "", 0, notice, q);
      v.ok && v.unread == q <==> pin.pin == ""
  {
  }

  // The prompting side

  datatype PinReply<+T> = ReplyOk(value: T) | ReplyWanted | ReplyExceeded | ReplyUnreadable

  datatype Handled<+T> = Handled(result: Option<T>, effects: seq<Doing>, unread: seq<Message>, unused: seq<string>)

  function Prompting(): seq<Doing> {
    [Announce(PinRequired), Tell(PinPrompted)]
  }

  function PinAttempt(json: Json, pin: string): Doing {
    Send(StringMessage(json.pin.show(pin)))
  }

  /** The reply to an attempt and what is left in the queue; a reply that is not chunked must be a string message. */
  function Reply(chunked: bool, q: seq<Message>): (Option<bytes>, seq<Message>) {
    if chunked then (Some(Gathered(q)), AfterGathering(q))
    else if q == [] then (None, [])
    else if !q[0].isString then (None, q[1..])
    else (Some(q[0].data), q[1..])
  }

  function Handle<T>(json: Json, chunked: bool, parse: bytes -> PinReply<T>, answers: seq<string>, q: seq<Message>): Handled<T>
    decreases |answers|
  {
    if answers == [] then Handled(None, Prompting(), q, [])
    else
      var asked := Prompting() + [PinAttempt(json, answers[0])];
      var (reply, later) := Reply(chunked, q);
      match reply
      case None => Handled(None, asked, later, answers[1..])
      case Some(data) =>
        match parse(data)
        case ReplyOk(value) => Handled(Some(value), asked, later, answers[1..])
        case ReplyWanted =>
          var rest := Handle(json, chunked, parse, answers[1..], later);
          rest.(effects := asked + rest.effects)
        case ReplyExceeded => Handled(None, asked + [Announce(TooManyAttempts)], later, answers[1..])
        case ReplyUnreadable => Handled(None, asked, later, answers[1..])
  }

  method HandlePin<T>(json: Json, journal: Journal<Event>, user: Receiver<string>, rx: Receiver<Message>,
                      receiveInChunks: bool, parse: bytes -> PinReply<T>)
    returns (result: Option<T>)
    modifies journal, user, rx
    ensures var h := Handle(json, receiveInChunks, parse, old(user.queue), old(rx.queue));
      && result == h.result && rx.queue == h.unread && user.queue == h.unused
      && journal.trace == old(journal.trace) + h.effects
  {
    ghost var h := Handle(json, receiveInChunks, parse, user.queue, rx.queue);
    ghost var goal := h.(effects := journal.trace + h.effects);
    while true
      invariant h == Handle(json, receiveInChunks, parse, user.queue, rx.queue)
      invariant goal == h.(effects := journal.trace + h.effects)
      decreases |user.queue|
    {
      ghost var before := journal.trace;
      journal.Do(Announce(PinRequired));
      journal.Do(Tell(PinPrompted));
      var pin := user.Recv();
      if pin.None? {
        return None;
      }
      journal.Do(PinAttempt(json, pin.value));
      ghost var asked := Prompting() + [PinAttempt(json, pin.value)];
      assert journal.trace == before + asked;
      var data: bytes;
      if receiveInChunks {
        data := ReceiveStringFromChunks(rx);
      } else {
        var message := rx.Recv();
        if message.None? || !message.value.isString {
          return None;
        }
        data := message.value.data;
      }
      match parse(data) {
        case ReplyOk(value) =>
          return Some(value);
        case ReplyWanted =>
          h := Handle(json, receiveInChunks, parse, user.queue, rx.queue);
          Associative(before, asked, h.effects);
        case ReplyExceeded =>
          journal.Do(Announce(TooManyAttempts));
          return None;
        case ReplyUnreadable =>
          return None;
      }
    }
  }

  // What the prompting loop amounts to, whatever the verdicts are

  /** What is left of the queue when `k` replies have been taken. */
  function AfterReplies(chunked: bool, q: seq<Message>, k: nat): seq<Message>
    decreases k
  {
    if k == 0 then q else AfterReplies(chunked, Reply(chunked, q).1, k - 1)
  }

  /** The verdict of reply `k`, which may be missing. */
  function VerdictAt<T>(chunked: bool, parse: bytes -> PinReply<T>, q: seq<Message>, k: nat): Option<PinReply<T>> {
    var reply := Reply(chunked, AfterReplies(chunked, q, k)).0;
    if reply.Some? then Some(parse(reply.value)) else None
  }

  predicate IsWanted<T>(v: Option<PinReply<T>>) {
    v.Some? && v.value.ReplyWanted?
  }

  /** The number of replies, up to `n`, that come before the first that does not ask again. */
  function AskedAgain<T>(chunked: bool, parse: bytes -> PinReply<T>, q: seq<Message>, n: nat): (k: nat)
    ensures k <= n && (k < n ==> !IsWanted(VerdictAt(chunked, parse, q, k)))
    ensures forall i :: 0 <= i < k ==> IsWanted(VerdictAt(chunked, parse, q, i))
    decreases n
  {
    if n == 0 || !IsWanted(VerdictAt(chunked, parse, q, 0)) then 0
    else
      var later := Reply(chunked, q).1;
      var rest := AskedAgain(chunked, parse, later, n - 1);
      assert forall i :: 0 < i <= n ==> VerdictAt(chunked, parse, q, i) == VerdictAt(chunked, parse, later, i - 1);
      1 + rest
  }

  /** The first `n` PINs, each with its prompt. */
  function Attempts(json: Json, pins: seq<string>, n: nat): seq<Doing> {
    if n == 0 || pins == [] then [] else Prompting() + [PinAttempt(json, pins[0])] + Attempts(json, pins[1..], n - 1)
  }

  /** What follows the last PIN: a prompt in vain if the user has no other, or the notice that there were too many. */
  function Conclusion<T>(verdict: Option<PinReply<T>>, outOfPins: bool): seq<Doing> {
    if outOfPins then Prompting()
    else if verdict.Some? && verdict.value.ReplyExceeded? then [Announce(TooManyAttempts)]
    else []
  }

  /** `k` verdicts ask again before the first that does not, or before the answers are used up. */
  ghost predicate HandledUpTo<T>(json: Json, chunked: bool, parse: bytes -> PinReply<T>, answers: seq<string>, q: seq<Message>, k: nat) {
    var h, n := Handle(json, chunked, parse, answers, q), |answers|;
    var sent, verdict := Min(k + 1, n), VerdictAt(chunked, parse, q, k);
    && h.result == (if k < n && verdict.Some? && verdict.value.ReplyOk? then Some(verdict.value.value) else None)
    && h.effects == Attempts(json, answers, sent) + Conclusion(verdict, k == n)
    && h.unused == answers[sent..] && h.unread == AfterReplies(chunked, q, sent)
  }

  lemma {:induction false} HandledLast<T>(json: Json, chunked: bool, parse: bytes -> PinReply<T>, answers: seq<string>, q: seq<Message>)
    requires answers == [] || !IsWanted(VerdictAt(chunked, parse, q, 0))
    ensures HandledUpTo(json, chunked, parse, answers, q, 0)
  {
    if answers == [] {
      assert [] + Prompting() == Prompting();
    } else {
      var asked := Prompting() + [PinAttempt(json, answers[0])];
      OneAttempt(json, answers);
      assert AfterReplies(chunked, q, 1) == AfterReplies(chunked, Reply(chunked, q).1, 0);
      assert asked + [] == asked;
    }
  }

  lemma {:induction false} HandledMore<T>(json: Json, chunked: bool, parse: bytes -> PinReply<T>, answers: seq<string>, q: seq<Message>, k: nat)
    requires answers != [] && IsWanted(VerdictAt(chunked, parse, q, 0)) && 0 < k <= |answers|
    requires HandledUpTo(json, chunked, parse, answers[1..], Reply(chunked, q).1, k - 1)
    ensures HandledUpTo(json, chunked, parse, answers, q, k)
  {
    var n, later, sent := |answers|, Reply(chunked, q).1, Min(k, |answers| - 1);
    var asked, verdict := Prompting() + [PinAttempt(json, answers[0])], VerdictAt(chunked, parse, q, k);
    assert verdict == VerdictAt(chunked, parse, later, k - 1);
    assert answers[1..][sent..] == answers[sent + 1..];
    assert Attempts(json, answers, sent + 1) == asked + Attempts(json, answers[1..], sent);
    Associative(asked, Attempts(json, answers[1..], sent), Conclusion(verdict, k == n));
  }

  /**
   The prompting loop on any verdicts and answers is exact: a PIN is sent,
   after a prompt of its own, until a verdict does not ask again or the user
   has no other PIN; it succeeds if and only if that verdict accepts; and it
   uses as many answers and replies as PINs are sent.
   */
  lemma {:induction false} HandleIsExact<T>(json: Json, chunked: bool, parse: bytes -> PinReply<T>, answers: seq<string>, q: seq<Message>)
    ensures HandledUpTo(json, chunked, parse, answers, q, AskedAgain(chunked, parse, q, |answers|))
    decreases |answers|
  {
    if answers == [] || !IsWanted(VerdictAt(chunked, parse, q, 0)) {
      HandledLast(json, chunked, parse, answers, q);
    } else {
      HandleIsExact(json, chunked, parse, answers[1..], Reply(chunked, q).1);
      HandledMore(json, chunked, parse, answers, q, AskedAgain(chunked, parse, q, |answers|));
    }
  }

  lemma {:induction false} OneAttempt(json: Json, answers: seq<string>)
    requires answers != []
    ensures Attempts(json, answers, 1) == Prompting() + [PinAttempt(json, answers[0])]
  {
    assert Attempts(json, answers[1..], 0) == [];
    var asked := Prompting() + [PinAttempt(json, answers[0])];
    assert asked + [] == asked;
  }

  function PromptCount(es: seq<Doing>): nat {
    if es == [] then 0 else PromptCount(es[1..]) + if es[0] == Tell(PinPrompted) then 1 else 0
  }

  lemma {:induction false} PromptCountAppend(a: seq<Doing>, b: seq<Doing>)
    ensures PromptCount(a + b) == PromptCount(a) + PromptCount(b)
  {
    if a == [] {
      assert a + b == b;
    } else {
      PromptCountAppend(a[1..], b);
      assert (a + b)[1..] == a[1..] + b;
    }
  }

  lemma {:induction false} PromptCountOf(a: Doing, b: Doing, c: Doing)
    ensures PromptCount([a]) == (if a == Tell(PinPrompted) then 1 else 0)
    ensures PromptCount([a, b]) == PromptCount([a]) + PromptCount([b])
    ensures PromptCount([a, b, c]) == PromptCount([a, b]) + PromptCount([c])
  {
    assert [a][1..] == [];
    PromptCountAppend([a], [b]);
    PromptCountAppend([a, b], [c]);
  }

  lemma {:induction false} AttemptsPrompt(json: Json, pins: seq<string>, n: nat)
    requires n <= |pins|
    ensures PromptCount(Attempts(json, pins, n)) == n && |Sends(Attempts(json, pins, n))| == n
  {
    if n > 0 {
      AttemptsPrompt(json, pins[1..], n - 1);
      var asked, rest := Prompting() + [PinAttempt(json, pins[0])], Attempts(json, pins[1..], n - 1);
      PromptCountOf(Announce(PinRequired), Tell(PinPrompted), PinAttempt(json, pins[0]));
      PromptCountOf(Tell(PinPrompted), Tell(PinPrompted), PinAttempt(json, pins[0]));
      PromptCountOf(PinAttempt(json, pins[0]), Tell(PinPrompted), Tell(PinPrompted));
      assert asked == [Announce(PinRequired), Tell(PinPrompted), PinAttempt(json, pins[0])];
      PromptCountAppend(asked, rest);
      AskedSendsOne(json, pins[0]);
      SendsTellsAppend(asked, rest);
    }
  }

  lemma {:induction false} PromptSendsNothing()
    ensures Sends(Prompting()) == []
  {
    OneEffect(Announce(PinRequired));
    OneEffect(Tell(PinPrompted));
    assert Prompting() == [Announce(PinRequired)] + [Tell(PinPrompted)];
    SendsTellsAppend([Announce(PinRequired)], [Tell(PinPrompted)]);
  }

  lemma {:induction false} AskedSendsOne(json: Json, pin: string)
    ensures Sends(Prompting() + [PinAttempt(json, pin)]) == [PinAttempt(json, pin).message]
  {
    PromptSendsNothing();
    OneEffect(PinAttempt(json, pin));
    SendsTellsAppend(Prompting(), [PinAttempt(json, pin)]);
  }

  lemma {:induction false} ConclusionPrompts<T>(verdict: Option<PinReply<T>>, outOfPins: bool)
    ensures PromptCount(Conclusion(verdict, outOfPins)) == (if outOfPins then 1 else 0) && Sends(Conclusion(verdict, outOfPins)) == []
  {
    PromptCountOf(Announce(PinRequired), Tell(PinPrompted), Tell(PinPrompted));
    PromptCountOf(Tell(PinPrompted), Tell(PinPrompted), Tell(PinPrompted));
    PromptCountOf(Announce(TooManyAttempts), Tell(PinPrompted), Tell(PinPrompted));
    OneEffect(Announce(TooManyAttempts));
    PromptSendsNothing();
  }

  /** One prompt per PIN sent, and one more exactly if the user was asked and had no other. */
  lemma {:induction false} OnePromptPerPin<T>(json: Json, chunked: bool, parse: bytes -> PinReply<T>, answers: seq<string>, q: seq<Message>)
    ensures var es := Handle(json, chunked, parse, answers, q).effects;
      PromptCount(es) == |Sends(es)| + if AskedAgain(chunked, parse, q, |answers|) == |answers| then 1 else 0
  {
    var n, k := |answers|, AskedAgain(chunked, parse, q, |answers|);
    var sent, end := Min(k + 1, n), Conclusion(VerdictAt(chunked, parse, q, k), k == n);
    HandleIsExact(json, chunked, parse, answers, q);
    AttemptsPrompt(json, answers, sent);
    PromptCountAppend(Attempts(json, answers, sent), end);
    SendsTellsAppend(Attempts(json, answers, sent), end);
    ConclusionPrompts(VerdictAt(chunked, parse, q, k), k == n);
  }
}
