/** The phases of a session before the files: nonces, tokens, both PIN challenges and the user's choice. */
module SessionPins {
  import opened Prelude
  import opened Model
  import opened Channel
  import opened Framing
  import opened TwoTasks
  import opened Protocol
  import opened Pin
  import opened S = Sender
  import opened R = Receiver
  import opened Session
  import opened SessionFiles

  lemma {:induction false} FirstMatchIs(pins: seq<string>, pin: string, k: nat)
    requires k <= |pins| && forall i :: 0 <= i < k ==> pins[i] != pin
    ensures FirstMatch(pins, pin) >= k
    ensures k < |pins| && pins[k] == pin ==> FirstMatch(pins, pin) == k
    ensures k < |pins| && pins[k] != pin ==> FirstMatch(pins, pin) > k
  {
    var f := FirstMatch(pins, pin);
    assert f < |pins| ==> pins[f] == pin;
  }

  // The user's choice

  /** The receiver is gathering a chunked string that may bring the file list. */
  predicate Gathering(ctl: ReceiverCtl, nonce: bytes) {
    || ctl == AwaitPinStatus(nonce, [])
    || (ctl.AwaitPinReply? && ctl.nonce == nonce && ctl.buffer == [])
  }

  function OnText(cfg: ReceiverConfig, ctl: ReceiverCtl, text: bytes): R.Next
    requires ctl.AwaitPinStatus? || ctl.AwaitPinReply?
  {
    if ctl.AwaitPinStatus? then OnPinStatus(cfg, ctl.nonce, text, Some(DELIMITER))
    else R.OnPinReply(cfg, ctl.nonce, ctl.guesses, text, Some(DELIMITER))
  }

  lemma {:induction false} ReceiverHearsText(c: Session, sctl: SenderCtl, slog: seq<Event>, rctl: ReceiverCtl, rlog: seq<Event>, nonce: bytes, text: bytes)
    requires Gathering(rctl, nonce)
    requires var n := OnText(c.r, rctl, text);
      Settles(c, Pause(sctl, slog, n.next, rlog + Tells(n.effects), [], Sends(n.effects)))
    ensures Settles(c, Pause(sctl, slog, rctl, rlog, Framed(text), []))
  {
    FramedGivesBack(text);
    if rctl.AwaitPinStatus? {
      ReceiverGathersStatus(c.r, nonce, [], Chunks(text));
    } else {
      ReceiverGathersReply(c.r, nonce, rctl.guesses, [], Chunks(text));
    }
    var n := OnText(c.r, rctl, text);
    assert [] + Sends(n.effects) == Sends(n.effects);
    ReceiverGoesOn(c, sctl, slog, rctl, rlog, Framed(text), []);
  }

  lemma {:induction false} SendsTellsOfChoice(cfg: ReceiverConfig, nonce: bytes, files: seq<FileDto>)
    ensures var n := Choose(cfg, nonce, files);
      && Tells(n.effects) == [StatusChanged(Connected), FilesListed(files)]
      && Sends(n.effects) ==
           match cfg.choice
           case NoChoice => []
           case Decline => Framed(cfg.json.fileList.show(ListDeclined))
           case Select(ids) => Framed(cfg.json.fileList.show(ListOk(map id | id in ids :: cfg.fileToken(id))))
  {
    var front: seq<Doing> := [Announce(Connected), Tell(FilesListed(files))];
    assert front == [front[0]] + [front[1]];
    Singletons(DELIMITER, StatusChanged(Connected));
    Singletons(DELIMITER, FilesListed(files));
    SendsTellsAppend([front[0]], [front[1]]);
    match cfg.choice
    case NoChoice =>
      SendsTellsAppend(front, []);
    case Decline =>
      SendsTellsAppend(front, SendAll<Event>(Framed(cfg.json.fileList.show(ListDeclined))));
      SendsOfSendAll<Event>(Framed(cfg.json.fileList.show(ListDeclined)));
    case Select(ids) =>
      var ms := Framed(cfg.json.fileList.show(ListOk(map id | id in ids :: cfg.fileToken(id))));
      SendsTellsAppend(front, SendAll<Event>(ms));
      SendsOfSendAll<Event>(ms);
  }

  /** The receiver has heard the file list: it tells its user and does what the user chose. */
  lemma {:induction false} ChoiceIsMade(c: Session, token: string, slog: seq<Event>, told: seq<Event>)
    requires Honest(c) && Expected(c) == ExpectedChoice(c, slog, told)
    ensures var n := Choose(c.r, SessionNonce(c), c.s.files);
      Settles(c, Pause(AwaitSelection(SessionNonce(c), token, false, []), slog, n.next, told, [], Sends(n.effects)))
  {
    var nonce := SessionNonce(c);
    SendsTellsOfChoice(c.r, nonce, c.s.files);
    match c.r.choice {
      case NoChoice =>
        NoChoiceIsMade(c, token, slog, told);
      case Decline =>
        ChoiceIsDeclined(c, token, slog, told);
      case Select(_) =>
        FilesPhase(c, token, slog, told);
    }
  }

  lemma {:induction false} NoChoiceIsMade(c: Session, token: string, slog: seq<Event>, told: seq<Event>)
    requires Honest(c) && Expected(c) == Ending(SendFailed, slog, Unanswered, told)
    ensures Settles(c, Pause(AwaitSelection(SessionNonce(c), token, false, []), slog, ReceiverDone(Unanswered), told, [], []))
  {
    SettlesWhenEnded(c, Pause(SenderDone(SendFailed), slog, ReceiverDone(Unanswered), told, [], []));
    SenderHearsClose(c, AwaitSelection(SessionNonce(c), token, false, []), slog, Unanswered, told, []);
  }

  lemma {:induction false} DeclineIsRead(c: Session, token: string)
    requires Honest(c)
    ensures var o := Run(SenderTask(c.s), AwaitSelection(SessionNonce(c), token, false, []), Framed(c.s.json.fileList.show(ListDeclined)));
      o.ctl == SenderDone(SendDeclined) && o.unread == [] && Tells(o.effects) == [StatusChanged(Declined)] && Sends(o.effects) == []
  {
    var nonce, answer := SessionNonce(c), c.s.json.fileList.show(ListDeclined);
    assert c.s.json.fileList.parse(answer) == Some(ListDeclined);
    FramedGivesBack(answer);
    SenderGathers(c.s, nonce, token, false, [], Chunks(answer));
    Singletons(DELIMITER, StatusChanged(Declined));
  }

  lemma {:induction false} ChoiceIsDeclined(c: Session, token: string, slog: seq<Event>, told: seq<Event>)
    requires Honest(c) && Expected(c) == Ending(SendDeclined, slog + [StatusChanged(Declined)], ReceiveDeclined, told)
    ensures Settles(c, Pause(AwaitSelection(SessionNonce(c), token, false, []), slog, ReceiverDone(ReceiveDeclined), told,
                             [], Framed(c.s.json.fileList.show(ListDeclined))))
  {
    var nonce, answer := SessionNonce(c), c.s.json.fileList.show(ListDeclined);
    DeclineIsRead(c, token);
    SettlesWhenEnded(c, Pause(SenderDone(SendDeclined), slog + [StatusChanged(Declined)], ReceiverDone(ReceiveDeclined), told, [], []));
    SenderGoesOn(c, AwaitSelection(nonce, token, false, []), slog, ReceiverDone(ReceiveDeclined), told, [], Framed(answer));
  }

  lemma {:induction false} ChoicePhase(c: Session, token: string, slog: seq<Event>, rctl: ReceiverCtl, rlog: seq<Event>)
    requires Honest(c) && Gathering(rctl, SessionNonce(c))
    requires Expected(c) == ExpectedChoice(c, slog, rlog + [StatusChanged(Connected), FilesListed(c.s.files)])
    ensures Settles(c, Pause(AwaitSelection(SessionNonce(c), token, false, []), slog, rctl, rlog,
                             Framed(c.s.json.pinSending.show(Files(c.s.files))), []))
  {
    var nonce, text := SessionNonce(c), c.s.json.pinSending.show(Files(c.s.files));
    assert c.s.json.pinSending.parse(text) == Some(Files(c.s.files));
    assert OnText(c.r, rctl, text) == Choose(c.r, nonce, c.s.files);
    SendsTellsOfChoice(c.r, nonce, c.s.files);
    ChoiceIsMade(c, token, slog, rlog + [StatusChanged(Connected), FilesListed(c.s.files)]);
    ReceiverHearsText(c, AwaitSelection(nonce, token, false, []), slog, rctl, rlog, nonce, text);
  }

  // The sender's PIN, which the receiver has to give

  lemma {:induction false} SenderNotices(cfg: SenderConfig)
    ensures var n := NoticesOf(r => S.Notice(cfg, r));
      && Sends(n.wanted) == Framed(cfg.json.pinSending.show(SendingPinWanted)) && Tells(n.wanted) == []
      && Sends(n.exceeded) == Framed(cfg.json.pinSending.show(SendingPinTriesExceeded))
      && Tells(n.exceeded) == [StatusChanged(TooManyAttempts)]
  {
    var wanted := Framed(cfg.json.pinSending.show(SendingPinWanted));
    var exceeded := Framed(cfg.json.pinSending.show(SendingPinTriesExceeded));
    SendsOfSendAll<Event>(wanted);
    SendsOfSendAll<Event>(exceeded);
    SendsTellsAppend(SendAll<Event>(exceeded), [Announce(TooManyAttempts)]);
    Singletons(DELIMITER, StatusChanged(TooManyAttempts));
    assert exceeded + [] == exceeded;
  }

  lemma {:induction false} ListIsSent(cfg: SenderConfig, nonce: bytes, token: string)
    ensures var n := SendFileList(cfg, nonce, token);
      && Sends(n.effects) == Framed(cfg.json.pinSending.show(Files(cfg.files)))
      && Tells(n.effects) == [StatusChanged(Connected)]
  {
    var list := Framed(cfg.json.pinSending.show(Files(cfg.files)));
    SendsOfSendAll<Event>(list);
    SendsTellsAppend([Announce(Connected)], SendAll<Event>(list));
    Singletons(DELIMITER, StatusChanged(Connected));
    assert [] + list == list;
  }

  lemma {:induction false} PromptIsGiven(json: Json, n: seq<Doing>, guess: string)
    requires n == Prompting() || n == Prompting() + [PinAttempt(json, guess)]
    ensures Tells(n) == [StatusChanged(PinRequired), PinPrompted]
    ensures Sends(n) == if n == Prompting() then [] else [StringMessage(json.pin.show(guess))]
  {
    assert Prompting() == [Announce(PinRequired)] + [Tell(PinPrompted)];
    Singletons(StringMessage(json.pin.show(guess)), StatusChanged(PinRequired));
    Singletons(StringMessage(json.pin.show(guess)), PinPrompted);
    SendsTellsAppend([Announce(PinRequired)], [Tell(PinPrompted)]);
    SendsTellsAppend(Prompting(), [PinAttempt(json, guess)]);
  }

  function GuessMessage(c: Session, guess: string): Message {
    StringMessage(c.s.json.pin.show(guess))
  }

  /** The stage of the sender's challenge at which the first `k` attempts were wrong. */
  ghost predicate SecondPinAt(c: Session, k: nat, slog: seq<Event>, rlog: seq<Event>) {
    && Honest(c) && c.s.pin.Some? && c.s.pin.value.pin != "" && Expected(c) == ExpectedSecondPin(c, slog, rlog)
    && k <= |c.r.guesses| && k < c.s.pin.value.maxTries
    && forall i :: 0 <= i < k ==> c.r.guesses[i] != c.s.pin.value.pin
  }

  function Asked(slog: seq<Event>): seq<Event> {
    slog + [StatusChanged(PinRequired)]
  }

  lemma {:induction false} SecondPinRight(c: Session, k: nat, slog: seq<Event>, rlog: seq<Event>)
    requires SecondPinAt(c, k, slog, rlog) && k < |c.r.guesses| && c.r.guesses[k] == c.s.pin.value.pin
    ensures Expected(c) == ExpectedChoice(c, Asked(slog) + [StatusChanged(Connected)],
                                          rlog + Prompts(k + 1) + [StatusChanged(Connected), FilesListed(c.s.files)])
  {
    FirstMatchIs(c.r.guesses, c.s.pin.value.pin, k);
    assert PromptLog(c.s.pin, c.r.guesses, 0) == Prompts(k + 1) + [] == Prompts(k + 1);
    assert GuardLog(c.s.pin, c.r.guesses) == [StatusChanged(PinRequired)];
  }

  lemma {:induction false} SecondPinExceeded(c: Session, k: nat, slog: seq<Event>, rlog: seq<Event>)
    requires SecondPinAt(c, k, slog, rlog) && k < |c.r.guesses| && c.r.guesses[k] != c.s.pin.value.pin
    requires k + 1 == c.s.pin.value.maxTries
    ensures Expected(c) == Ending(SendFailed, Asked(slog) + [StatusChanged(TooManyAttempts)],
                                  ReceiveFailed, rlog + Prompts(k + 1) + [StatusChanged(TooManyAttempts)])
  {
    FirstMatchIs(c.r.guesses, c.s.pin.value.pin, k);
    Associative(slog, [StatusChanged(PinRequired)], [StatusChanged(TooManyAttempts)]);
    Associative(rlog, Prompts(k + 1), [StatusChanged(TooManyAttempts)]);
  }

  lemma {:induction false} SecondPinGivenUp(c: Session, k: nat, slog: seq<Event>, rlog: seq<Event>)
    requires SecondPinAt(c, k, slog, rlog) && k == |c.r.guesses|
    ensures Expected(c) == Ending(SendFailed, Asked(slog), ReceiveFailed, rlog + Prompts(k + 1))
  {
    FirstMatchIs(c.r.guesses, c.s.pin.value.pin, k);
    assert PromptLog(c.s.pin, c.r.guesses, 0) == Prompts(k + 1) + [] == Prompts(k + 1);
    assert GuardLog(c.s.pin, c.r.guesses) == [StatusChanged(PinRequired)];
  }

  /** The sender is through with the attempts. */
  lemma {:induction false} SenderGivesUp(c: Session, slog: seq<Event>, rctl: ReceiverCtl, rlog: seq<Event>, nonce: bytes)
    requires Honest(c) && Gathering(rctl, nonce)
    requires Expected(c) == Ending(SendFailed, slog, ReceiveFailed, rlog +
      [if rctl.AwaitPinStatus? then StatusChanged(RTCStatus.Error("Unexpected TooManyAttempts response"))
       else StatusChanged(TooManyAttempts)])
    ensures Settles(c, Pause(SenderDone(SendFailed), slog, rctl, rlog,
                             Framed(c.s.json.pinSending.show(SendingPinTriesExceeded)), []))
  {
    var text := c.s.json.pinSending.show(SendingPinTriesExceeded);
    assert c.s.json.pinSending.parse(text) == Some(SendingPinTriesExceeded);
    var n := OnText(c.r, rctl, text);
    var e := if rctl.AwaitPinStatus? then StatusChanged(RTCStatus.Error("Unexpected TooManyAttempts response"))
             else StatusChanged(TooManyAttempts);
    assert n == Reaction([Tell(e)], ReceiverDone(ReceiveFailed));
    Singletons(DELIMITER, e);
    SettlesWhenEnded(c, Pause(SenderDone(SendFailed), slog, n.next, rlog + [e], [], []));
    ReceiverHearsText(c, SenderDone(SendFailed), slog, rctl, rlog, nonce, text);
  }

  /** The sender challenges; the receiver has been asked for attempt `k`, has prompted its user and has sent it. */
  lemma {:induction false} SenderPinDuel(c: Session, token: string, k: nat, slog: seq<Event>, rlog: seq<Event>)
    requires SecondPinAt(c, k, slog, rlog) && k < |c.r.guesses|
    ensures Settles(c, Pause(SenderCtl.AwaitPin(SessionNonce(c), token, k), Asked(slog),
                             ReceiverCtl.AwaitPinReply(SessionNonce(c), c.r.guesses[k + 1..], []), rlog + Prompts(k + 1),
                             [], [GuessMessage(c, c.r.guesses[k])]))
    decreases |c.r.guesses| - k, 1
  {
    var nonce, guess := SessionNonce(c), c.r.guesses[k];
    var sctl, rctl := SenderCtl.AwaitPin(nonce, token, k), ReceiverCtl.AwaitPinReply(nonce, c.r.guesses[k + 1..], []);
    assert c.s.json.pin.parse(c.s.json.pin.show(guess)) == Some(guess);
    var n := S.CheckPin(c.s, c.s.pin.value, nonce, token, guess, k + 1, false);
    assert S.React(c.s, sctl, Some(GuessMessage(c, guess))) == n;
    SenderAnswers(c, token, k, slog, rlog, rctl);
    assert [] + Sends(n.effects) == Sends(n.effects);
    SenderHears(c, sctl, Asked(slog), rctl, rlog + Prompts(k + 1), [], GuessMessage(c, guess));
  }

  lemma {:induction false} SenderAdmits(c: Session, token: string, k: nat, slog: seq<Event>, rlog: seq<Event>, rctl: ReceiverCtl)
    requires SecondPinAt(c, k, slog, rlog) && k < |c.r.guesses| && c.r.guesses[k] == c.s.pin.value.pin
    requires rctl == ReceiverCtl.AwaitPinReply(SessionNonce(c), c.r.guesses[k + 1..], [])
    ensures var n := SendFileList(c.s, SessionNonce(c), token);
      Settles(c, Pause(n.next, Asked(slog) + Tells(n.effects), rctl, rlog + Prompts(k + 1), Sends(n.effects), []))
  {
    ListIsSent(c.s, SessionNonce(c), token);
    SecondPinRight(c, k, slog, rlog);
    ChoicePhase(c, token, Asked(slog) + [StatusChanged(Connected)], rctl, rlog + Prompts(k + 1));
  }

  lemma {:induction false} SenderRefuses(c: Session, token: string, k: nat, slog: seq<Event>, rlog: seq<Event>, rctl: ReceiverCtl)
    requires SecondPinAt(c, k, slog, rlog) && k < |c.r.guesses| && c.r.guesses[k] != c.s.pin.value.pin && k + 1 == c.s.pin.value.maxTries
    requires rctl == ReceiverCtl.AwaitPinReply(SessionNonce(c), c.r.guesses[k + 1..], [])
    ensures var n := S.CheckPin(c.s, c.s.pin.value, SessionNonce(c), token, c.r.guesses[k], k + 1, false);
      Settles(c, Pause(n.next, Asked(slog) + Tells(n.effects), rctl, rlog + Prompts(k + 1), Sends(n.effects), []))
  {
    SenderNotices(c.s);
    SecondPinExceeded(c, k, slog, rlog);
    SenderGivesUp(c, Asked(slog) + [StatusChanged(TooManyAttempts)], rctl, rlog + Prompts(k + 1), SessionNonce(c));
  }

  lemma {:induction false} SenderAnswers(c: Session, token: string, k: nat, slog: seq<Event>, rlog: seq<Event>, rctl: ReceiverCtl)
    requires SecondPinAt(c, k, slog, rlog) && k < |c.r.guesses|
    requires rctl == ReceiverCtl.AwaitPinReply(SessionNonce(c), c.r.guesses[k + 1..], [])
    ensures var n := S.CheckPin(c.s, c.s.pin.value, SessionNonce(c), token, c.r.guesses[k], k + 1, false);
      Settles(c, Pause(n.next, Asked(slog) + Tells(n.effects), rctl, rlog + Prompts(k + 1), Sends(n.effects), []))
    decreases |c.r.guesses| - k, 0
  {
    if c.r.guesses[k] == c.s.pin.value.pin {
      SenderAdmits(c, token, k, slog, rlog, rctl);
    } else if k + 1 == c.s.pin.value.maxTries {
      SenderRefuses(c, token, k, slog, rlog, rctl);
    } else {
      SenderNotices(c.s);
      assert Asked(slog) + [] == Asked(slog);
      SenderAsks(c, token, k + 1, slog, rlog, rctl);
    }
  }

  /** The sender asks for attempt `k`. */
  lemma {:induction false} SenderAsks(c: Session, token: string, k: nat, slog: seq<Event>, rlog: seq<Event>, rctl: ReceiverCtl)
    requires SecondPinAt(c, k, slog, rlog) && Gathering(rctl, SessionNonce(c))
    requires if rctl.AwaitPinStatus? then k == 0 else rctl.guesses == c.r.guesses[k..]
    ensures Settles(c, Pause(SenderCtl.AwaitPin(SessionNonce(c), token, k), Asked(slog),
                             rctl, rlog + Prompts(k), Framed(c.s.json.pinSending.show(SendingPinWanted)), []))
    decreases |c.r.guesses| - k, 3
  {
    var nonce := SessionNonce(c);
    var text := c.s.json.pinSending.show(SendingPinWanted);
    assert c.s.json.pinSending.parse(text) == Some(SendingPinWanted);
    assert c.r.guesses[0..] == c.r.guesses;
    assert OnText(c.r, rctl, text) == R.PromptForPin(c.r, nonce, c.r.guesses[k..]);
    ReceiverPrompts(c, token, k, slog, rlog);
    ReceiverHearsText(c, SenderCtl.AwaitPin(nonce, token, k), Asked(slog), rctl, rlog + Prompts(k), nonce, text);
  }

  /** The sender waits in vain for another attempt. */
  lemma {:induction false} NoOtherAttempt(c: Session, sctl: SenderCtl, slog: seq<Event>, rlog: seq<Event>)
    requires sctl.AwaitPin? && Expected(c) == Ending(SendFailed, slog, ReceiveFailed, rlog)
    ensures Settles(c, Pause(sctl, slog, ReceiverDone(ReceiveFailed), rlog, [], []))
  {
    SettlesWhenEnded(c, Pause(SenderDone(SendFailed), slog, ReceiverDone(ReceiveFailed), rlog, [], []));
    SenderHearsClose(c, sctl, slog, ReceiveFailed, rlog, []);
  }

  lemma {:induction false} ReceiverGivesUp(c: Session, token: string, k: nat, slog: seq<Event>, rlog: seq<Event>)
    requires SecondPinAt(c, k, slog, rlog) && k == |c.r.guesses|
    ensures var n := R.PromptForPin(c.r, SessionNonce(c), c.r.guesses[k..]);
      Settles(c, Pause(SenderCtl.AwaitPin(SessionNonce(c), token, k), Asked(slog),
                       n.next, rlog + Prompts(k) + Tells(n.effects), [], Sends(n.effects)))
  {
    Associative(rlog, Prompts(k), [StatusChanged(PinRequired), PinPrompted]);
    assert Prompting() + [] == Prompting();
    PromptIsGiven(c.r.json, Prompting(), "");
    SecondPinGivenUp(c, k, slog, rlog);
    NoOtherAttempt(c, SenderCtl.AwaitPin(SessionNonce(c), token, k), Asked(slog), rlog + Prompts(k + 1));
  }

  lemma {:induction false} ReceiverPrompts(c: Session, token: string, k: nat, slog: seq<Event>, rlog: seq<Event>)
    requires SecondPinAt(c, k, slog, rlog)
    ensures var n := R.PromptForPin(c.r, SessionNonce(c), c.r.guesses[k..]);
      Settles(c, Pause(SenderCtl.AwaitPin(SessionNonce(c), token, k), Asked(slog),
                       n.next, rlog + Prompts(k) + Tells(n.effects), [], Sends(n.effects)))
    decreases |c.r.guesses| - k, 2
  {
    var guesses := c.r.guesses;
    if k == |guesses| {
      ReceiverGivesUp(c, token, k, slog, rlog);
    } else {
      var n := R.PromptForPin(c.r, SessionNonce(c), guesses[k..]);
      Associative(rlog, Prompts(k), [StatusChanged(PinRequired), PinPrompted]);
      assert guesses[k..][0] == guesses[k] && guesses[k..][1..] == guesses[k + 1..];
      PromptIsGiven(c.r.json, n.effects, guesses[k]);
      SenderPinDuel(c, token, k, slog, rlog);
    }
  }

  lemma {:induction false} WithoutSecondPin(c: Session, slog: seq<Event>, rlog: seq<Event>)
    requires c.s.pin.None? || c.s.pin.value.maxTries == 0 || c.s.pin.value.pin == ""
    ensures ExpectedSecondPin(c, slog, rlog) ==
      if c.s.pin.None? then
        ExpectedChoice(c, slog + [StatusChanged(Connected)], rlog + [StatusChanged(Connected), FilesListed(c.s.files)])
      else if c.s.pin.value.pin == "" then
        ExpectedChoice(c, Asked(slog) + [StatusChanged(Connected)], rlog + [StatusChanged(Connected), FilesListed(c.s.files)])
      else
        Ending(SendFailed, Asked(slog) + [StatusChanged(TooManyAttempts)],
               ReceiveFailed, rlog + [StatusChanged(RTCStatus.Error("Unexpected TooManyAttempts response"))])
  {
    assert slog + [] == slog && rlog + [] == rlog && [StatusChanged(PinRequired)] + [] == [StatusChanged(PinRequired)];
    Associative(slog, [StatusChanged(PinRequired)], [StatusChanged(TooManyAttempts)]);
  }

  /** A sender with an empty PIN says that it asks for one, and sends the list at once. */
  lemma {:induction false} EmptyPinIsGiven(c: Session, token: string, slog: seq<Event>, rlog: seq<Event>)
    requires Honest(c) && Expected(c) == ExpectedSecondPin(c, slog, rlog) && IsEmptyPin(c.s.pin)
    ensures var n := ChallengeReceiver(c.s, SessionNonce(c), token);
      Settles(c, Pause(n.next, slog + Tells(n.effects), AwaitPinStatus(SessionNonce(c), []), rlog, Sends(n.effects), []))
  {
    var list := SendFileList(c.s, SessionNonce(c), token).effects;
    ListIsSent(c.s, SessionNonce(c), token);
    SendsTellsAppend([Announce(PinRequired)], list);
    Singletons(DELIMITER, StatusChanged(PinRequired));
    assert [] + Sends(list) == Sends(list);
    Associative(slog, [StatusChanged(PinRequired)], [StatusChanged(Connected)]);
    WithoutSecondPin(c, slog, rlog);
    ChoicePhase(c, token, Asked(slog) + [StatusChanged(Connected)], AwaitPinStatus(SessionNonce(c), []), rlog);
  }

  lemma {:induction false} AskedFirst(cfg: SenderConfig, pin: PinConfig, nonce: bytes, token: string)
    requires cfg.pin == Some(pin) && pin.pin != "" && pin.maxTries > 0
    ensures var n := ChallengeReceiver(cfg, nonce, token);
      && n.next == SenderCtl.AwaitPin(nonce, token, 0)
      && Sends(n.effects) == Framed(cfg.json.pinSending.show(SendingPinWanted))
      && Tells(n.effects) == [StatusChanged(PinRequired)]
  {
    var wanted := NoticesOf(r => S.Notice(cfg, r)).wanted;
    SenderNotices(cfg);
    Singletons(DELIMITER, StatusChanged(PinRequired));
    SendsTellsAppend([Announce(PinRequired)], wanted);
    assert [] + Sends(wanted) == Sends(wanted);
    assert [StatusChanged(PinRequired)] + [] == [StatusChanged(PinRequired)];
  }

  lemma {:induction false} SecondPinAsked(c: Session, token: string, slog: seq<Event>, rlog: seq<Event>)
    requires SecondPinAt(c, 0, slog, rlog)
    ensures var n := ChallengeReceiver(c.s, SessionNonce(c), token);
      Settles(c, Pause(n.next, slog + Tells(n.effects), AwaitPinStatus(SessionNonce(c), []), rlog, Sends(n.effects), []))
  {
    AskedFirst(c.s, c.s.pin.value, SessionNonce(c), token);
    assert rlog + Prompts(0) == rlog;
    SenderAsks(c, token, 0, slog, rlog, AwaitPinStatus(SessionNonce(c), []));
  }

  lemma {:induction false} SecondPinRefused(c: Session, token: string, slog: seq<Event>, rlog: seq<Event>)
    requires Honest(c) && Expected(c) == ExpectedSecondPin(c, slog, rlog)
    requires c.s.pin.Some? && c.s.pin.value.maxTries == 0 && c.s.pin.value.pin != ""
    ensures var n := ChallengeReceiver(c.s, SessionNonce(c), token);
      Settles(c, Pause(n.next, slog + Tells(n.effects), AwaitPinStatus(SessionNonce(c), []), rlog, Sends(n.effects), []))
  {
    var notices := NoticesOf(r => S.Notice(c.s, r));
    SenderNotices(c.s);
    Singletons(DELIMITER, StatusChanged(PinRequired));
    SendsTellsAppend([Announce(PinRequired)], notices.exceeded);
    assert [] + Sends(notices.exceeded) == Sends(notices.exceeded);
    Associative(slog, [StatusChanged(PinRequired)], [StatusChanged(TooManyAttempts)]);
    WithoutSecondPin(c, slog, rlog);
    SenderGivesUp(c, Asked(slog) + [StatusChanged(TooManyAttempts)], AwaitPinStatus(SessionNonce(c), []), rlog, SessionNonce(c));
  }

  /** Whatever the sender does once it is through with the receiver's PIN. */
  lemma {:induction false} SecondPinPhase(c: Session, token: string, slog: seq<Event>, rlog: seq<Event>)
    requires Honest(c) && Expected(c) == ExpectedSecondPin(c, slog, rlog)
    ensures var n := ChallengeReceiver(c.s, SessionNonce(c), token);
      Settles(c, Pause(n.next, slog + Tells(n.effects), AwaitPinStatus(SessionNonce(c), []), rlog, Sends(n.effects), []))
  {
    if c.s.pin.None? {
      ListIsSent(c.s, SessionNonce(c), token);
      WithoutSecondPin(c, slog, rlog);
      ChoicePhase(c, token, slog + [StatusChanged(Connected)], AwaitPinStatus(SessionNonce(c), []), rlog);
    } else if c.s.pin.value.pin == "" {
      EmptyPinIsGiven(c, token, slog, rlog);
    } else if c.s.pin.value.maxTries == 0 {
      SecondPinRefused(c, token, slog, rlog);
    } else {
      SecondPinAsked(c, token, slog, rlog);
    }
  }
}
