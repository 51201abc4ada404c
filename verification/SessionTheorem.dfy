/** The opening of a session, and the theorem about every interleaving of its two tasks. */
module SessionTheorem {
  import opened Prelude
  import opened Model
  import opened Channel
  import opened TwoTasks
  import opened Protocol
  import opened Pin
  import opened S = Sender
  import opened R = Receiver
  import opened Session
  import opened SessionFiles
  import opened SessionPins
  import Base64

  // The receiver's PIN, which the sender has to give

  lemma {:induction false} ReceiverNotices(cfg: ReceiverConfig)
    ensures var n := NoticesOf(r => R.Notice(cfg, r));
      && Sends(n.wanted) == [StringMessage(cfg.json.pinReceiving.show(PinWanted))] && Tells(n.wanted) == []
      && Sends(n.exceeded) == [StringMessage(cfg.json.pinReceiving.show(PinTriesExceeded))]
      && Tells(n.exceeded) == [StatusChanged(TooManyAttempts)]
  {
    var wanted := [StringMessage(cfg.json.pinReceiving.show(PinWanted))];
    var exceeded := [StringMessage(cfg.json.pinReceiving.show(PinTriesExceeded))];
    SendsOfSendAll<Event>(wanted);
    SendsOfSendAll<Event>(exceeded);
    SendsTellsAppend(SendAll<Event>(exceeded), [Announce(TooManyAttempts)]);
    Singletons(DELIMITER, StatusChanged(TooManyAttempts));
  }

  ghost predicate Trusting(c: Session) {
    && Honest(c)
    && Trusts(c.r.hash, c.r.expecting, SenderToken(c), SessionNonce(c))
    && Trusts(c.s.hash, c.s.expecting, ReceiverToken(c), SessionNonce(c))
  }

  /** The stage of the receiver's challenge at which the first `k` attempts were wrong. */
  ghost predicate FirstPinAt(c: Session, k: nat) {
    && Trusting(c) && c.r.pin.Some? && c.r.pin.value.pin != ""
    && k <= |c.s.guesses| && k < c.r.pin.value.maxTries
    && forall i :: 0 <= i < k ==> c.s.guesses[i] != c.r.pin.value.pin
  }

  const GUARDED: seq<Event> := [StatusChanged(PinRequired)]

  lemma {:induction false} FirstPinOutcome(c: Session, k: nat)
    requires FirstPinAt(c, k)
    ensures k == |c.s.guesses| ==> Expected(c) == Ending(SendFailed, Prompts(k + 1), ReceiveFailed, GUARDED)
    ensures k < |c.s.guesses| && c.s.guesses[k] == c.r.pin.value.pin ==>
      Expected(c) == ExpectedSecondPin(c, Prompts(k + 1), GUARDED)
    ensures k < |c.s.guesses| && c.s.guesses[k] != c.r.pin.value.pin && k + 1 == c.r.pin.value.maxTries ==>
      Expected(c) == Ending(SendFailed, Prompts(k + 1) + [StatusChanged(TooManyAttempts)],
                            ReceiveFailed, GUARDED + [StatusChanged(TooManyAttempts)])
  {
    FirstMatchIs(c.s.guesses, c.r.pin.value.pin, k);
    assert Prompts(k + 1) + [] == Prompts(k + 1) && GUARDED + [] == GUARDED;
  }

  lemma {:induction false} SenderHasNoOther(c: Session, k: nat)
    requires FirstPinAt(c, k) && k == |c.s.guesses|
    ensures var n := S.PromptForPin(c.s, SessionNonce(c), ReceiverToken(c), c.s.guesses[k..]);
      Settles(c, Pause(n.next, Prompts(k) + Tells(n.effects), ReceiverCtl.AwaitPin(SessionNonce(c), k), GUARDED, Sends(n.effects), []))
  {
    FirstPinOutcome(c, k);
    assert Prompting() + [] == Prompting();
    PromptIsGiven(c.s.json, Prompting(), "");
    SettlesWhenEnded(c, Pause(SenderDone(SendFailed), Prompts(k + 1), ReceiverDone(ReceiveFailed), GUARDED, [], []));
    ReceiverHearsClose(c, SendFailed, Prompts(k + 1), ReceiverCtl.AwaitPin(SessionNonce(c), k), GUARDED, []);
  }

  lemma {:induction false} SenderPrompts(c: Session, k: nat)
    requires FirstPinAt(c, k)
    ensures var n := S.PromptForPin(c.s, SessionNonce(c), ReceiverToken(c), c.s.guesses[k..]);
      Settles(c, Pause(n.next, Prompts(k) + Tells(n.effects), ReceiverCtl.AwaitPin(SessionNonce(c), k), GUARDED, Sends(n.effects), []))
    decreases |c.s.guesses| - k, 2
  {
    var nonce, guesses := SessionNonce(c), c.s.guesses;
    var rctl := ReceiverCtl.AwaitPin(nonce, k);
    var n := S.PromptForPin(c.s, nonce, ReceiverToken(c), guesses[k..]);
    FirstPinOutcome(c, k);
    if k == |guesses| {
      SenderHasNoOther(c, k);
    } else {
      assert guesses[k..][0] == guesses[k] && guesses[k..][1..] == guesses[k + 1..];
      PromptIsGiven(c.s.json, n.effects, guesses[k]);
      ReceiverPinDuel(c, k);
    }
  }

  /** The receiver challenges; attempt `k` is on its way. */
  lemma {:induction false} ReceiverPinDuel(c: Session, k: nat)
    requires FirstPinAt(c, k) && k < |c.s.guesses|
    ensures Settles(c, Pause(SenderCtl.AwaitPinReply(SessionNonce(c), ReceiverToken(c), c.s.guesses[k + 1..]), Prompts(k + 1),
                             ReceiverCtl.AwaitPin(SessionNonce(c), k), GUARDED, [GuessMessage(c, c.s.guesses[k])], []))
    decreases |c.s.guesses| - k, 1
  {
    var nonce, guess := SessionNonce(c), c.s.guesses[k];
    var sctl := SenderCtl.AwaitPinReply(nonce, ReceiverToken(c), c.s.guesses[k + 1..]);
    var rctl := ReceiverCtl.AwaitPin(nonce, k);
    assert c.r.json.pin.parse(c.r.json.pin.show(guess)) == Some(guess);
    var n := R.CheckPin(c.r, c.r.pin.value, nonce, guess, k + 1, false);
    assert R.React(c.r, rctl, Some(GuessMessage(c, guess))) == n;
    ReceiverAnswers(c, k);
    assert [] + Sends(n.effects) == Sends(n.effects);
    ReceiverHears(c, sctl, Prompts(k + 1), rctl, GUARDED, [], GuessMessage(c, guess));
  }

  lemma {:induction false} ReceiverAnswers(c: Session, k: nat)
    requires FirstPinAt(c, k) && k < |c.s.guesses|
    ensures var n := R.CheckPin(c.r, c.r.pin.value, SessionNonce(c), c.s.guesses[k], k + 1, false);
      Settles(c, Pause(SenderCtl.AwaitPinReply(SessionNonce(c), ReceiverToken(c), c.s.guesses[k + 1..]), Prompts(k + 1),
                       n.next, GUARDED + Tells(n.effects), [], Sends(n.effects)))
    decreases |c.s.guesses| - k, 0
  {
    if c.s.guesses[k] == c.r.pin.value.pin {
      ReceiverAccepts(c, k);
    } else if k + 1 == c.r.pin.value.maxTries {
      ReceiverNotices(c.r);
      ReceiverGivesUp(c, k);
    } else {
      ReceiverNotices(c.r);
      assert GUARDED + [] == GUARDED;
      ReceiverAsksAgain(c, k);
    }
  }

  lemma {:induction false} ReceiverAsksAgain(c: Session, k: nat)
    requires FirstPinAt(c, k + 1)
    ensures Settles(c, Pause(SenderCtl.AwaitPinReply(SessionNonce(c), ReceiverToken(c), c.s.guesses[k + 1..]), Prompts(k + 1),
                             ReceiverCtl.AwaitPin(SessionNonce(c), k + 1), GUARDED, [], [PinAnswer(c, PinWanted)]))
    decreases |c.s.guesses| - k - 1, 3
  {
    var sctl := SenderCtl.AwaitPinReply(SessionNonce(c), ReceiverToken(c), c.s.guesses[k + 1..]);
    var m := PinAnswer(c, PinWanted);
    assert c.s.json.pinReceiving.parse(m.data) == Some(PinWanted);
    var n := S.React(c.s, sctl, Some(m));
    assert [] + Sends(n.effects) == Sends(n.effects);
    SenderPrompts(c, k + 1);
    SenderHears(c, sctl, Prompts(k + 1), ReceiverCtl.AwaitPin(SessionNonce(c), k + 1), GUARDED, [], m);
  }

  function PinAnswer(c: Session, answer: PinReceivingResponse): Message {
    StringMessage(c.s.json.pinReceiving.show(answer))
  }

  lemma {:induction false} ReceiverAccepts(c: Session, k: nat)
    requires FirstPinAt(c, k) && k < |c.s.guesses| && c.s.guesses[k] == c.r.pin.value.pin
    ensures var n := R.CheckPin(c.r, c.r.pin.value, SessionNonce(c), c.s.guesses[k], k + 1, false);
      Settles(c, Pause(SenderCtl.AwaitPinReply(SessionNonce(c), ReceiverToken(c), c.s.guesses[k + 1..]), Prompts(k + 1),
                       n.next, GUARDED + Tells(n.effects), [], Sends(n.effects)))
  {
    var nonce, token := SessionNonce(c), ReceiverToken(c);
    var sctl := SenderCtl.AwaitPinReply(nonce, token, c.s.guesses[k + 1..]);
    var m := PinAnswer(c, PinAccepted);
    AcceptanceIsHeard(c, c.s.guesses[k + 1..]);
    var n := ChallengeReceiver(c.s, nonce, token);
    assert [] + Sends(n.effects) == Sends(n.effects) && GUARDED + [] == GUARDED;
    Singletons(m, StatusChanged(PinRequired));
    FirstPinOutcome(c, k);
    SecondPinPhase(c, token, Prompts(k + 1), GUARDED);
    SenderHears(c, sctl, Prompts(k + 1), AwaitPinStatus(nonce, []), GUARDED, [], m);
  }

  lemma {:induction false} ExceededIsTold(c: Session, sctl: SenderCtl)
    requires Honest(c) && sctl.AwaitPinReply?
    ensures var r := S.React(c.s, sctl, Some(PinAnswer(c, PinTriesExceeded)));
      r.next == SenderDone(SendFailed) && Tells(r.effects) == [StatusChanged(TooManyAttempts)] && Sends(r.effects) == []
  {
    assert c.s.json.pinReceiving.parse(PinAnswer(c, PinTriesExceeded).data) == Some(PinTriesExceeded);
    Singletons(DELIMITER, StatusChanged(TooManyAttempts));
  }

  lemma {:induction false} SenderIsTurnedDown(c: Session, sctl: SenderCtl, slog: seq<Event>, rlog: seq<Event>)
    requires Honest(c) && sctl.AwaitPinReply?
    requires Expected(c) == Ending(SendFailed, slog + [StatusChanged(TooManyAttempts)], ReceiveFailed, rlog)
    ensures Settles(c, Pause(sctl, slog, ReceiverDone(ReceiveFailed), rlog, [], [PinAnswer(c, PinTriesExceeded)]))
  {
    var m := PinAnswer(c, PinTriesExceeded);
    ExceededIsTold(c, sctl);
    SettlesWhenEnded(c, Pause(SenderDone(SendFailed), slog + [StatusChanged(TooManyAttempts)], ReceiverDone(ReceiveFailed), rlog, [], []));
    SenderHears(c, sctl, slog, ReceiverDone(ReceiveFailed), rlog, [], m);
  }

  lemma {:induction false} ReceiverGivesUp(c: Session, k: nat)
    requires FirstPinAt(c, k) && k < |c.s.guesses| && c.s.guesses[k] != c.r.pin.value.pin
    requires k + 1 == c.r.pin.value.maxTries
    ensures Settles(c, Pause(SenderCtl.AwaitPinReply(SessionNonce(c), ReceiverToken(c), c.s.guesses[k + 1..]), Prompts(k + 1),
                             ReceiverDone(ReceiveFailed), GUARDED + [StatusChanged(TooManyAttempts)],
                             [], [PinAnswer(c, PinTriesExceeded)]))
  {
    FirstPinOutcome(c, k);
    SenderIsTurnedDown(c, SenderCtl.AwaitPinReply(SessionNonce(c), ReceiverToken(c), c.s.guesses[k + 1..]), Prompts(k + 1),
                       GUARDED + [StatusChanged(TooManyAttempts)]);
  }

  // The exchange of tokens

  /** The receiver allows no attempt at all: it is gone before the sender has prompted its user. */
  lemma {:induction false} NoAttemptAllowed(c: Session)
    requires Honest(c) && c.r.pin.Some? && c.r.pin.value.maxTries == 0 && c.r.pin.value.pin != ""
    requires Trusts(c.r.hash, c.r.expecting, SenderToken(c), SessionNonce(c))
    ensures Settles(c, Pause(SenderCtl.AwaitToken(SessionNonce(c)), [], ReceiverDone(ReceiveFailed),
                             GUARDED + [StatusChanged(TooManyAttempts)], [],
                             [StringMessage(c.s.json.tokenResponse.show(TokenPinRequired(ReceiverToken(c)))),
                              PinAnswer(c, PinTriesExceeded)]))
  {
    var sctl, rlog := SenderCtl.AwaitToken(SessionNonce(c)), GUARDED + [StatusChanged(TooManyAttempts)];
    var ms := [StringMessage(c.s.json.tokenResponse.show(TokenPinRequired(ReceiverToken(c)))), PinAnswer(c, PinTriesExceeded)];
    NoAttemptRun(c);
    NoAttemptOutcome(c);
    var o := Run(SenderTask(c.s), sctl, ms);
    SettlesWhenEnded(c, Pause(o.ctl, Tells(o.effects), ReceiverDone(ReceiveFailed), rlog, Sends(o.effects), o.unread));
    assert [] + Tells(o.effects) == Tells(o.effects) && [] + Sends(o.effects) == Sends(o.effects);
    SenderGoesOn(c, sctl, [], ReceiverDone(ReceiveFailed), rlog, [], ms);
  }

  function WantsPin(c: Session): Message {
    StringMessage(c.s.json.tokenResponse.show(TokenPinRequired(ReceiverToken(c))))
  }

  /** The sender hears that a PIN is wanted, and gives the first if it trusts the receiver and its user has any. */
  lemma {:induction false} FirstPrompt(c: Session)
    requires Honest(c)
    ensures var n := S.React(c.s, SenderCtl.AwaitToken(SessionNonce(c)), Some(WantsPin(c)));
      if !Trusts(c.s.hash, c.s.expecting, ReceiverToken(c), SessionNonce(c)) then n == Reaction([], SenderDone(SendFailed))
      else
        && Tells(n.effects) == [StatusChanged(PinRequired), PinPrompted]
        && Sends(n.effects) == (if c.s.guesses == [] then [] else [GuessMessage(c, c.s.guesses[0])])
        && n.next == if c.s.guesses == [] then SenderDone(SendFailed)
                     else SenderCtl.AwaitPinReply(SessionNonce(c), ReceiverToken(c), c.s.guesses[1..])
  {
    var nonce, token, guesses := SessionNonce(c), ReceiverToken(c), c.s.guesses;
    assert c.s.json.tokenResponse.parse(WantsPin(c).data) == Some(TokenPinRequired(token));
    var n := S.React(c.s, SenderCtl.AwaitToken(nonce), Some(WantsPin(c)));
    if Trusts(c.s.hash, c.s.expecting, token, nonce) {
      assert n == S.PromptForPin(c.s, nonce, token, guesses);
      if guesses == [] {
        assert Prompting() + [] == Prompting();
        PromptIsGiven(c.s.json, n.effects, "");
      } else {
        PromptIsGiven(c.s.json, n.effects, guesses[0]);
      }
    }
  }

  lemma {:induction false} NoAttemptRun(c: Session)
    requires Honest(c)
    ensures var o := Run(SenderTask(c.s), SenderCtl.AwaitToken(SessionNonce(c)),
        [StringMessage(c.s.json.tokenResponse.show(TokenPinRequired(ReceiverToken(c)))), PinAnswer(c, PinTriesExceeded)]);
      && o.ctl == SenderDone(SendFailed)
      && Tells(o.effects) ==
        if !Trusts(c.s.hash, c.s.expecting, ReceiverToken(c), SessionNonce(c)) then []
        else [StatusChanged(PinRequired), PinPrompted] + if c.s.guesses == [] then [] else [StatusChanged(TooManyAttempts)]
  {
    var sctl, t := SenderCtl.AwaitToken(SessionNonce(c)), SenderTask(c.s);
    var m1, m2 := WantsPin(c), PinAnswer(c, PinTriesExceeded);
    var n := S.React(c.s, sctl, Some(m1));
    FirstPrompt(c);
    RunOne(t, sctl, m1);
    RunBoth(t, sctl, [m1], [m2]);
    assert [m1] + [m2] == [m1, m2];
    if n.next.SenderDone? {
      NothingLeft(t, n.next, [m2]);
    } else {
      NoMoreAttempts(c, n.next);
    }
  }

  lemma {:induction false} NoMoreAttempts(c: Session, sctl: SenderCtl)
    requires Honest(c) && sctl.AwaitPinReply?
    ensures var o := Run(SenderTask(c.s), sctl, [PinAnswer(c, PinTriesExceeded)]);
      o.ctl == SenderDone(SendFailed) && Tells(o.effects) == [StatusChanged(TooManyAttempts)]
  {
    ExceededIsTold(c, sctl);
    RunOne(SenderTask(c.s), sctl, PinAnswer(c, PinTriesExceeded));
  }

  lemma {:induction false} NoAttemptOutcome(c: Session)
    requires c.r.pin.Some? && c.r.pin.value.maxTries == 0 && c.r.pin.value.pin != ""
    requires Trusts(c.r.hash, c.r.expecting, SenderToken(c), SessionNonce(c))
    ensures Expected(c) == Ending(SendFailed,
      if !Trusts(c.s.hash, c.s.expecting, ReceiverToken(c), SessionNonce(c)) then []
      else [StatusChanged(PinRequired), PinPrompted] + if c.s.guesses == [] then [] else [StatusChanged(TooManyAttempts)],
      ReceiveFailed, GUARDED + [StatusChanged(TooManyAttempts)])
  {
    assert Prompts(1) == Prompts(0) + [StatusChanged(PinRequired), PinPrompted] == [StatusChanged(PinRequired), PinPrompted];
  }

  function FirstReply(c: Session): Message {
    StringMessage(c.s.json.tokenResponse.show(if c.r.pin.Some? then TokenPinRequired(ReceiverToken(c)) else TokenOk(ReceiverToken(c))))
  }

  /** The receiver waits for an attempt or for the file list, and its token is on its way. */
  lemma {:induction false} TokenIsHeard(c: Session)
    requires Honest(c) && Trusts(c.r.hash, c.r.expecting, SenderToken(c), SessionNonce(c))
    requires c.r.pin.Some? ==> c.r.pin.value.maxTries > 0 && c.r.pin.value.pin != ""
    ensures Settles(c, Pause(SenderCtl.AwaitToken(SessionNonce(c)), [],
                             if c.r.pin.Some? then ReceiverCtl.AwaitPin(SessionNonce(c), 0) else AwaitPinStatus(SessionNonce(c), []),
                             if c.r.pin.Some? then GUARDED else [], [], [FirstReply(c)]))
  {
    var nonce, token, m := SessionNonce(c), ReceiverToken(c), FirstReply(c);
    var rctl := if c.r.pin.Some? then ReceiverCtl.AwaitPin(nonce, 0) else AwaitPinStatus(nonce, []);
    var rlog := if c.r.pin.Some? then GUARDED else [];
    assert c.s.json.tokenResponse.parse(m.data) == Some(if c.r.pin.Some? then TokenPinRequired(token) else TokenOk(token));
    var a := S.OnToken(c.s, nonce, Some(m));
    assert [] + Sends(a.effects) == Sends(a.effects) && [] + Tells(a.effects) == Tells(a.effects);
    if !Trusts(c.s.hash, c.s.expecting, token, nonce) {
      TokenIsRefused(c, rctl, rlog);
    } else if c.r.pin.None? {
      SecondPinPhase(c, token, [], []);
    } else {
      assert c.s.guesses[0..] == c.s.guesses;
      assert Prompts(0) + Tells(a.effects) == Tells(a.effects);
      SenderPrompts(c, 0);
    }
    SenderHears(c, SenderCtl.AwaitToken(nonce), [], rctl, rlog, [], m);
  }

  lemma {:induction false} TokenIsRefused(c: Session, rctl: ReceiverCtl, rlog: seq<Event>)
    requires Honest(c) && Trusts(c.r.hash, c.r.expecting, SenderToken(c), SessionNonce(c))
    requires !Trusts(c.s.hash, c.s.expecting, ReceiverToken(c), SessionNonce(c))
    requires c.r.pin.Some? ==> c.r.pin.value.maxTries > 0 && c.r.pin.value.pin != ""
    requires rctl.AwaitPin? || (rctl.AwaitPinStatus? && rctl.buffer == [])
    requires rlog == if c.r.pin.Some? then GUARDED else []
    ensures Settles(c, Pause(SenderDone(SendFailed), [], rctl, rlog, [], []))
  {
    assert rlog + [] == rlog;
    assert Expected(c) == Ending(SendFailed, [], ReceiveFailed, rlog);
    SettlesWhenEnded(c, Pause(SenderDone(SendFailed), [], ReceiverDone(ReceiveFailed), rlog, [], []));
    ReceiverHearsClose(c, SendFailed, [], rctl, rlog, []);
  }

  /** The receiver's token, and what follows. */
  lemma {:induction false} TokenPhase(c: Session)
    requires Honest(c) && Trusts(c.r.hash, c.r.expecting, SenderToken(c), SessionNonce(c))
    ensures var n := ReplyWithToken(c.r, SessionNonce(c));
      Settles(c, Pause(SenderCtl.AwaitToken(SessionNonce(c)), [], n.next, Tells(n.effects), [], Sends(n.effects)))
  {
    TokenReplied(c);
    if IsEmptyPin(c.r.pin) {
      EmptyPinPhase(c);
    } else if c.r.pin.Some? && c.r.pin.value.maxTries == 0 {
      NoAttemptAllowed(c);
    } else {
      TokenIsHeard(c);
    }
  }

  // A receiver with an empty PIN

  lemma {:induction false} CheckTells(cfg: SenderConfig, pin: PinConfig, nonce: bytes, token: string, remote: string, tries: nat, notice: bool)
    ensures Tells(S.CheckPin(cfg, pin, nonce, token, remote, tries, notice).effects)
         == if remote == pin.pin then [StatusChanged(Connected)] else if tries >= pin.maxTries then [StatusChanged(TooManyAttempts)] else []
  {
    var n, notices := S.CheckPin(cfg, pin, nonce, token, remote, tries, notice), NoticesOf(r => S.Notice(cfg, r));
    if remote == pin.pin {
      ListIsSent(cfg, nonce, token);
    } else {
      SenderNotices(cfg);
      assert n.effects == if tries >= pin.maxTries then notices.exceeded else Asking(notices, tries, notice);
    }
  }

  lemma {:induction false} ChallengeTells(cfg: SenderConfig, nonce: bytes, token: string)
    ensures Tells(ChallengeReceiver(cfg, nonce, token).effects) == ChallengeLog(cfg.pin)
  {
    if cfg.pin.None? {
      ListIsSent(cfg, nonce, token);
    } else {
      CheckTells(cfg, cfg.pin.value, nonce, token, "", 0, true);
      Singletons(DELIMITER, StatusChanged(PinRequired));
      SendsTellsAppend([Announce(PinRequired)], S.CheckPin(cfg, cfg.pin.value, nonce, token, "", 0, true).effects);
    }
  }

  /** The receiver is gone: a sender that waits for an attempt or for the selection fails. */
  lemma {:induction false} ChallengeIsVain(c: Session, slog: seq<Event>, toReceiver: seq<Message>)
    requires Honest(c) && Expected(c) == Ending(SendFailed, slog, ReceiveFailed, GUARDED)
    ensures var sctl := ChallengeReceiver(c.s, SessionNonce(c), ReceiverToken(c)).next;
      Settles(c, Pause(sctl, slog, ReceiverDone(ReceiveFailed), GUARDED, toReceiver, []))
  {
    var sctl := ChallengeReceiver(c.s, SessionNonce(c), ReceiverToken(c)).next;
    SettlesWhenEnded(c, Pause(SenderDone(SendFailed), slog, ReceiverDone(ReceiveFailed), GUARDED, toReceiver, []));
    if !sctl.SenderDone? {
      SenderHearsClose(c, sctl, slog, ReceiveFailed, GUARDED, toReceiver);
    }
  }

  /** The attempt ends what the receiver takes for a verdict, which is empty. */
  lemma {:induction false} AttemptIsMistaken(c: Session, sctl: SenderCtl, slog: seq<Event>, guess: string, more: seq<Message>)
    requires Honest(c)
    requires Settles(c, Pause(sctl, slog, ReceiverDone(ReceiveFailed), GUARDED, more, []))
    ensures Settles(c, Pause(sctl, slog, AwaitPinStatus(SessionNonce(c), []), GUARDED, [GuessMessage(c, guess)] + more, []))
  {
    var rctl, wire := AwaitPinStatus(SessionNonce(c), []), [GuessMessage(c, guess)] + more;
    assert wire[1..] == more;
    RunFirst(ReceiverTask(c.r), rctl, wire);
    NothingLeft(ReceiverTask(c.r), ReceiverDone(ReceiveFailed), more);
    assert Run(ReceiverTask(c.r), rctl, wire) == Outcome([] + [], ReceiverDone(ReceiveFailed), more);
    assert GUARDED + [] == GUARDED;
    ReceiverGoesOn(c, sctl, slog, rctl, GUARDED, wire, []);
  }

  lemma {:induction false} AcceptanceIsHeard(c: Session, guesses: seq<string>)
    requires Honest(c)
    ensures S.React(c.s, SenderCtl.AwaitPinReply(SessionNonce(c), ReceiverToken(c), guesses), Some(PinAnswer(c, PinAccepted)))
         == ChallengeReceiver(c.s, SessionNonce(c), ReceiverToken(c))
  {
    assert c.s.json.pinReceiving.parse(PinAnswer(c, PinAccepted).data) == Some(PinAccepted);
  }

  lemma {:induction false} EmptyPinRun(c: Session)
    requires Honest(c)
    ensures var n := ChallengeReceiver(c.s, SessionNonce(c), ReceiverToken(c));
      var o := Run(SenderTask(c.s), SenderCtl.AwaitToken(SessionNonce(c)),
        [StringMessage(c.s.json.tokenResponse.show(TokenPinRequired(ReceiverToken(c)))), PinAnswer(c, PinAccepted)]);
      if !Trusts(c.s.hash, c.s.expecting, ReceiverToken(c), SessionNonce(c)) then
        o.ctl == SenderDone(SendFailed) && Tells(o.effects) == [] && Sends(o.effects) == []
      else if c.s.guesses == [] then
        o.ctl == SenderDone(SendFailed) && Tells(o.effects) == Prompts(1) && Sends(o.effects) == []
      else
        && o.ctl == n.next && o.unread == [] && Tells(o.effects) == Prompts(1) + Tells(n.effects)
        && Sends(o.effects) == [GuessMessage(c, c.s.guesses[0])] + Sends(n.effects)
  {
    var sctl, t := SenderCtl.AwaitToken(SessionNonce(c)), SenderTask(c.s);
    var m1, m2 := WantsPin(c), PinAnswer(c, PinAccepted);
    var n := S.React(c.s, sctl, Some(m1));
    assert Prompts(1) == Prompts(0) + [StatusChanged(PinRequired), PinPrompted] == [StatusChanged(PinRequired), PinPrompted];
    FirstPrompt(c);
    RunOne(t, sctl, m1);
    RunBoth(t, sctl, [m1], [m2]);
    assert [m1] + [m2] == [m1, m2];
    if n.next.SenderDone? {
      NothingLeft(t, n.next, [m2]);
    } else {
      AcceptanceIsHeard(c, n.next.guesses);
      RunOne(t, n.next, m2);
    }
  }

  lemma {:induction false} NoAttemptComes(c: Session, unread: seq<Message>)
    requires Honest(c) && Expected(c).sender == SendFailed && Expected(c).receiver == ReceiveFailed && Expected(c).receiverLog == GUARDED
    ensures Settles(c, Pause(SenderDone(SendFailed), Expected(c).senderLog, AwaitPinStatus(SessionNonce(c), []), GUARDED, [], unread))
  {
    var slog := Expected(c).senderLog;
    assert GUARDED + [] == GUARDED;
    SettlesWhenEnded(c, Pause(SenderDone(SendFailed), slog, ReceiverDone(ReceiveFailed), GUARDED, [], unread));
    ReceiverHearsClose(c, SendFailed, slog, AwaitPinStatus(SessionNonce(c), []), GUARDED, unread);
  }

  lemma {:induction false} EmptyPinPhase(c: Session)
    requires Honest(c) && IsEmptyPin(c.r.pin) && Trusts(c.r.hash, c.r.expecting, SenderToken(c), SessionNonce(c))
    ensures Settles(c, Pause(SenderCtl.AwaitToken(SessionNonce(c)), [], AwaitPinStatus(SessionNonce(c), []), GUARDED, [],
                             [FirstReply(c), PinAnswer(c, PinAccepted)]))
  {
    var sctl, rctl := SenderCtl.AwaitToken(SessionNonce(c)), AwaitPinStatus(SessionNonce(c), []);
    var ms := [FirstReply(c), PinAnswer(c, PinAccepted)];
    var o := Run(SenderTask(c.s), sctl, ms);
    EmptyPinRun(c);
    assert GUARDED + [] == GUARDED && Prompts(1) + [] == Prompts(1);
    assert [] + Tells(o.effects) == Tells(o.effects) && [] + Sends(o.effects) == Sends(o.effects);
    if !Trusts(c.s.hash, c.s.expecting, ReceiverToken(c), SessionNonce(c)) || c.s.guesses == [] {
      NoAttemptComes(c, o.unread);
    } else {
      var n := ChallengeReceiver(c.s, SessionNonce(c), ReceiverToken(c));
      ChallengeTells(c.s, SessionNonce(c), ReceiverToken(c));
      ChallengeIsVain(c, Tells(o.effects), Sends(n.effects));
      AttemptIsMistaken(c, n.next, Tells(o.effects), c.s.guesses[0], Sends(n.effects));
    }
    SenderGoesOn(c, sctl, [], rctl, GUARDED, [], ms);
  }

  /** The receiver's challenge as it begins, without an attempt. */
  lemma {:induction false} FirstCheck(c: Session, pin: PinConfig)
    requires c.r.pin == Some(pin)
    ensures var n := R.CheckPin(c.r, pin, SessionNonce(c), "", 0, false);
      if pin.pin == "" then
        n.next == AwaitPinStatus(SessionNonce(c), []) && Tells(n.effects) == [] && Sends(n.effects) == [StringMessage(c.r.json.pinReceiving.show(PinAccepted))]
      else if pin.maxTries == 0 then
        && n.next == ReceiverDone(ReceiveFailed) && Tells(n.effects) == [StatusChanged(TooManyAttempts)]
        && Sends(n.effects) == [StringMessage(c.r.json.pinReceiving.show(PinTriesExceeded))]
      else n.next == ReceiverCtl.AwaitPin(SessionNonce(c), 0) && n.effects == []
  {
    ReceiverNotices(c.r);
    Singletons(StringMessage(c.r.json.pinReceiving.show(PinAccepted)), StatusChanged(PinRequired));
  }

  lemma {:induction false} ReplyIsFirst(c: Session, es: seq<Doing>)
    requires Honest(c) && c.r.pin.Some?
    ensures var all := [TokenReply(c.r, TokenPinRequired(ReceiverToken(c))), Announce(PinRequired)] + es;
      Sends(all) == [FirstReply(c)] + Sends(es) && Tells(all) == GUARDED + Tells(es)
  {
    var m := FirstReply(c);
    var front: seq<Doing> := [Send(m), Announce(PinRequired)];
    Singletons(m, StatusChanged(PinRequired));
    assert front == [Send(m)] + [Announce(PinRequired)];
    SendsTellsAppend([Send(m)], [Announce(PinRequired)]);
    SendsTellsAppend(front, es);
  }

  lemma {:induction false} TokenReplied(c: Session)
    requires Honest(c)
    ensures var n := ReplyWithToken(c.r, SessionNonce(c));
      var m := FirstReply(c);
      if c.r.pin.None? then
        n.next == AwaitPinStatus(SessionNonce(c), []) && Tells(n.effects) == [] && Sends(n.effects) == [m]
      else if IsEmptyPin(c.r.pin) then
        && n.next == AwaitPinStatus(SessionNonce(c), []) && Tells(n.effects) == GUARDED
        && Sends(n.effects) == [m, PinAnswer(c, PinAccepted)]
      else if c.r.pin.value.maxTries == 0 then
        && n.next == ReceiverDone(ReceiveFailed) && Tells(n.effects) == GUARDED + [StatusChanged(TooManyAttempts)]
        && Sends(n.effects) == [m, PinAnswer(c, PinTriesExceeded)]
      else
        n.next == ReceiverCtl.AwaitPin(SessionNonce(c), 0) && Tells(n.effects) == GUARDED && Sends(n.effects) == [m]
  {
    if c.r.pin.None? {
      Singletons(FirstReply(c), StatusChanged(PinRequired));
    } else {
      var check := R.CheckPin(c.r, c.r.pin.value, SessionNonce(c), "", 0, false);
      FirstCheck(c, c.r.pin.value);
      ReplyIsFirst(c, check.effects);
      assert GUARDED + [] == GUARDED && [FirstReply(c)] + [] == [FirstReply(c)];
    }
  }

  lemma {:induction false} TokenIsRejected(c: Session)
    requires Honest(c) && !Trusts(c.r.hash, c.r.expecting, SenderToken(c), SessionNonce(c))
    ensures var n := R.OnToken(c.r, SessionNonce(c), Some(StringMessage(c.s.json.tokenRequest.show(SenderToken(c)))));
      Settles(c, Pause(SenderCtl.AwaitToken(SessionNonce(c)), [], n.next, Tells(n.effects), [], Sends(n.effects)))
  {
    var nonce, token := SessionNonce(c), SenderToken(c);
    var sctl, m := SenderCtl.AwaitToken(nonce), StringMessage(c.s.json.tokenRequest.show(token));
    assert c.r.json.tokenRequest.parse(m.data) == Some(token);
    var n := R.OnToken(c.r, nonce, Some(m));
    SettlesWhenEnded(c, Pause(SenderDone(SendFailed), [], ReceiverDone(ReceiveFailed), [], [], []));
    if n.effects == [] {
      SenderHearsClose(c, sctl, [], ReceiveFailed, [], []);
    } else {
      var no := StringMessage(c.s.json.tokenResponse.show(TokenInvalidSignature));
      assert c.s.json.tokenResponse.parse(no.data) == Some(TokenInvalidSignature);
      assert n == Reaction([Send(no)], ReceiverDone(ReceiveFailed));
      Singletons(no, PinPrompted);
      SenderHears(c, sctl, [], ReceiverDone(ReceiveFailed), [], [], no);
    }
  }

  lemma {:induction false} SenderTokenPhase(c: Session)
    requires Honest(c)
    ensures Settles(c, Pause(SenderCtl.AwaitToken(SessionNonce(c)), [], ReceiverCtl.AwaitToken(SessionNonce(c)), [],
                             [StringMessage(c.s.json.tokenRequest.show(SenderToken(c)))], []))
  {
    var nonce, token := SessionNonce(c), SenderToken(c);
    var m := StringMessage(c.s.json.tokenRequest.show(token));
    assert c.r.json.tokenRequest.parse(m.data) == Some(token);
    var n := R.OnToken(c.r, nonce, Some(m));
    assert [] + Sends(n.effects) == Sends(n.effects) && [] + Tells(n.effects) == Tells(n.effects);
    if Trusts(c.r.hash, c.r.expecting, token, nonce) {
      TokenPhase(c);
    } else {
      TokenIsRejected(c);
    }
    ReceiverHears(c, SenderCtl.AwaitToken(nonce), [], ReceiverCtl.AwaitToken(nonce), [], [], m);
  }

  // The exchange of nonces

  function NonceMessage(json: Json, nonce: bytes): Message {
    StringMessage(json.nonce.show(Base64.Encode(nonce)))
  }

  lemma {:induction false} NonceArrives(json: Json, nonce: bytes)
    requires json.Lawful() && |nonce| == 32
    ensures ReceiveNonce(json, Some(NonceMessage(json, nonce))) == Some(nonce)
  {
    assert json.nonce.parse(json.nonce.show(Base64.Encode(nonce))) == Some(Base64.Encode(nonce));
    Base64.DecodeInvertsEncode(Base64.Encode(nonce), nonce);
  }

  /** From the beginning, one order of turns leads to the expected end. */
  lemma {:induction false} SessionSettles(c: Session)
    requires Honest(c)
    ensures Settles(c, Begin(c))
  {
    var ms := NonceMessage(c.s.json, c.s.nonce);
    SendersNonceIsHeard(c);
    Singletons(ms, PinPrompted);
    SenderSettles(Both(c), Begin(c));
    SettlesBefore(c, Begin(c), Pause(SenderCtl.AwaitNonce, [], ReceiverCtl.AwaitNonce, [], [ms], []));
  }

  lemma {:induction false} SendersNonceIsHeard(c: Session)
    requires Honest(c)
    ensures Settles(c, Pause(SenderCtl.AwaitNonce, [], ReceiverCtl.AwaitNonce, [], [NonceMessage(c.s.json, c.s.nonce)], []))
  {
    var ms, mr := NonceMessage(c.s.json, c.s.nonce), NonceMessage(c.r.json, c.r.nonce);
    NonceArrives(c.s.json, c.s.nonce);
    ReceiversNonceIsHeard(c);
    Singletons(mr, PinPrompted);
    var n := R.React(c.r, ReceiverCtl.AwaitNonce, Some(ms));
    assert n == Reaction([Send(mr)], ReceiverCtl.AwaitToken(SessionNonce(c)));
    assert [] + Sends(n.effects) == [mr] && [] + Tells(n.effects) == [];
    ReceiverHears(c, SenderCtl.AwaitNonce, [], ReceiverCtl.AwaitNonce, [], [], ms);
  }

  lemma {:induction false} ReceiversNonceIsHeard(c: Session)
    requires Honest(c)
    ensures Settles(c, Pause(SenderCtl.AwaitNonce, [], ReceiverCtl.AwaitToken(SessionNonce(c)), [],
                             [], [NonceMessage(c.r.json, c.r.nonce)]))
  {
    var mr := NonceMessage(c.r.json, c.r.nonce);
    var request := StringMessage(c.s.json.tokenRequest.show(SenderToken(c)));
    NonceArrives(c.s.json, c.r.nonce);
    SenderTokenPhase(c);
    Singletons(request, PinPrompted);
    var n := S.React(c.s, SenderCtl.AwaitNonce, Some(mr));
    assert n == Reaction([Send(request)], SenderCtl.AwaitToken(SessionNonce(c)));
    assert [] + Sends(n.effects) == [request] && [] + Tells(n.effects) == [];
    SenderHears(c, SenderCtl.AwaitNonce, [], ReceiverCtl.AwaitToken(SessionNonce(c)), [], [], mr);
  }

  // Every order of turns

  /** A schedule of the session, as far as it got. */
  ghost predicate Interleaving(c: Session, turns: seq<Turn>) {
    Possible(Both(c), Begin(c), turns)
  }

  function Reached(c: Session, turns: seq<Turn>): Scene {
    After(Both(c), Begin(c), turns)
  }

  /**
   Two honest tasks, in whatever order they take their turns, never block each
   other: a world in which neither can move is the expected end, with the
   results and everything told to both applications as computed from what the
   two sides are given; and the expected end remains reachable all the time.
   */
  lemma {:induction false} EveryInterleavingEndsAsExpected(c: Session, turns: seq<Turn>)
    requires Honest(c) && Interleaving(c, turns)
    ensures Stuck(Both(c), Reached(c, turns)) <==> Ended(c, Reached(c, turns))
    ensures Settles(c, Reached(c, turns))
  {
    SessionSettles(c);
    var end :| LeadsTo(Both(c), Begin(c), end) && Ended(c, end);
    var run :| Possible(Both(c), Begin(c), run) && After(Both(c), Begin(c), run) == end;
    EndedIsStuck(c, end);
    var rest := EveryRunCompletes(Both(c), Begin(c), run, turns);
    var w := Reached(c, turns);
    assert LeadsTo(Both(c), w, end);
    if Stuck(Both(c), w) {
      assert rest == [];
    }
    if Ended(c, w) {
      EndedIsStuck(c, w);
    }
  }

  /** No schedule has more than `turns` turns, and exactly those that have that many cannot go on. */
  ghost predicate LastsFor(c: Session, turns: nat) {
    forall some :: Interleaving(c, some) ==>
      |some| <= turns && (Stuck(Both(c), Reached(c, some)) <==> |some| == turns)
  }

  /** Every interleaving comes to an end, and all take the same number of turns. */
  lemma {:induction false} EveryInterleavingTerminates(c: Session)
    requires Honest(c)
    ensures exists turns :: LastsFor(c, turns)
  {
    SessionSettles(c);
    var end :| LeadsTo(Both(c), Begin(c), end) && Ended(c, end);
    var run :| Possible(Both(c), Begin(c), run) && After(Both(c), Begin(c), run) == end;
    EndedIsStuck(c, end);
    forall some | Interleaving(c, some)
      ensures |some| <= |run| && (Stuck(Both(c), Reached(c, some)) <==> |some| == |run|)
    {
      var rest := EveryRunCompletes(Both(c), Begin(c), run, some);
      if rest == [] {
        assert Reached(c, some) == end;
      }
    }
    assert LastsFor(c, |run|);
  }
}
