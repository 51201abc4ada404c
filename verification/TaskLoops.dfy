/** The PIN loops are what the two peers do, to the close of the channel, while they wait for PINs and for verdicts on them. */
module TaskLoops {
  import opened Prelude
  import opened Model
  import opened Channel
  import opened Framing
  import opened TwoTasks
  import opened Protocol
  import opened Pin
  import opened S = Sender
  import opened R = Receiver

  // The verifying side

  /** What the sender does on `q` from the point where `remote` has been read and `tries` attempts are counted. */
  function SenderChecks(cfg: SenderConfig, pin: PinConfig, nonce: bytes, token: string, remote: string, tries: nat, notice: bool, q: seq<Message>): S.Next {
    var n := S.CheckPin(cfg, pin, nonce, token, remote, tries, notice);
    S.Then(n.effects, S.RunToClose(cfg, n.next, q))
  }

  /** What it does once the PIN is right. */
  function SenderPassed(cfg: SenderConfig, nonce: bytes, token: string, q: seq<Message>): S.Next {
    var n := SendFileList(cfg, nonce, token);
    S.Then(n.effects, S.RunToClose(cfg, n.next, q))
  }

  lemma {:induction false} SenderFails(cfg: SenderConfig, es: seq<Doing>, ctl: SenderCtl, q: seq<Message>)
    requires ctl == SenderDone(SendFailed) || (q == [] && (ctl.AwaitPin? || ctl.AwaitPinReply?))
    ensures S.Then(es, S.RunToClose(cfg, ctl, q)) == Reaction(es, SenderDone(SendFailed))
  {
    S.RunToCloseLast(cfg, ctl, q);
    assert S.UponClose(cfg, SenderDone(SendFailed)) == Reaction([], SenderDone(SendFailed));
    assert es + [] == es;
  }

  /** While the sender challenges the receiver, it does what the verifying loop does. */
  lemma {:induction false} SenderVerifies(cfg: SenderConfig, pin: PinConfig, nonce: bytes, token: string, remote: string, tries: nat, notice: bool, q: seq<Message>)
    requires cfg.pin == Some(pin)
    ensures var v := Verify(cfg.json, pin, NoticesOf(r => S.Notice(cfg, r)), remote, tries, notice, q);
      SenderChecks(cfg, pin, nonce, token, remote, tries, notice, q)
      == if v.ok then S.Then(v.effects, SenderPassed(cfg, nonce, token, v.unread)) else Reaction(v.effects, SenderDone(SendFailed))
    decreases |q|
  {
    var n := S.CheckPin(cfg, pin, nonce, token, remote, tries, notice);
    if remote == pin.pin {
      var later := SenderPassed(cfg, nonce, token, q);
      assert [] + later.effects == later.effects;
    } else if tries >= pin.maxTries || q == [] {
      SenderFails(cfg, n.effects, n.next, q);
    } else {
      S.RunToCloseFirst(cfg, n.next, q);
      var next := cfg.json.pin.parse(q[0].data);
      if next.None? {
        SenderFails(cfg, [], SenderDone(SendFailed), q[1..]);
        assert n.effects + [] == n.effects;
      } else {
        SenderVerifies(cfg, pin, nonce, token, next.value, tries + 1, false, q[1..]);
        var rest := Verify(cfg.json, pin, NoticesOf(r => S.Notice(cfg, r)), next.value, tries + 1, false, q[1..]);
        Associative(n.effects, rest.effects, SenderPassed(cfg, nonce, token, rest.unread).effects);
      }
    }
  }

  function ReceiverChecks(cfg: ReceiverConfig, pin: PinConfig, nonce: bytes, remote: string, tries: nat, notice: bool, q: seq<Message>): R.Next {
    var n := R.CheckPin(cfg, pin, nonce, remote, tries, notice);
    R.Then(n.effects, R.RunToClose(cfg, n.next, q))
  }

  function ReceiverPassed(cfg: ReceiverConfig, nonce: bytes, q: seq<Message>): R.Next {
    R.Then([Send(StringMessage(cfg.json.pinReceiving.show(PinAccepted)))], R.RunToClose(cfg, AwaitPinStatus(nonce, []), q))
  }

  lemma {:induction false} ReceiverFails(cfg: ReceiverConfig, es: seq<Doing>, ctl: ReceiverCtl, q: seq<Message>)
    requires ctl == ReceiverDone(ReceiveFailed) || (q == [] && ctl.AwaitPin?)
    ensures R.Then(es, R.RunToClose(cfg, ctl, q)) == Reaction(es, ReceiverDone(ReceiveFailed))
  {
    R.RunToCloseLast(cfg, ctl, q);
    assert R.UponClose(cfg, ReceiverDone(ReceiveFailed)) == Reaction([], ReceiverDone(ReceiveFailed));
    assert es + [] == es;
  }

  /** While the receiver challenges the sender, it does what the verifying loop does. */
  lemma {:induction false} ReceiverVerifies(cfg: ReceiverConfig, pin: PinConfig, nonce: bytes, remote: string, tries: nat, notice: bool, q: seq<Message>)
    requires cfg.pin == Some(pin)
    ensures var v := Verify(cfg.json, pin, NoticesOf(r => R.Notice(cfg, r)), remote, tries, notice, q);
      ReceiverChecks(cfg, pin, nonce, remote, tries, notice, q)
      == if v.ok then R.Then(v.effects, ReceiverPassed(cfg, nonce, v.unread)) else Reaction(v.effects, ReceiverDone(ReceiveFailed))
    decreases |q|
  {
    var n := R.CheckPin(cfg, pin, nonce, remote, tries, notice);
    if remote == pin.pin {
      var later := ReceiverPassed(cfg, nonce, q);
      assert [] + later.effects == later.effects;
    } else if tries >= pin.maxTries || q == [] {
      ReceiverFails(cfg, n.effects, n.next, q);
    } else {
      R.RunToCloseFirst(cfg, n.next, q);
      var next := cfg.json.pin.parse(q[0].data);
      if next.None? {
        ReceiverFails(cfg, [], ReceiverDone(ReceiveFailed), q[1..]);
        assert n.effects + [] == n.effects;
      } else {
        ReceiverVerifies(cfg, pin, nonce, next.value, tries + 1, false, q[1..]);
        var rest := Verify(cfg.json, pin, NoticesOf(r => R.Notice(cfg, r)), next.value, tries + 1, false, q[1..]);
        Associative(n.effects, rest.effects, ReceiverPassed(cfg, nonce, rest.unread).effects);
      }
    }
  }

  // The prompting side

  /** How the sender reads the receiver's verdict on an attempt. */
  function SenderReads(cfg: SenderConfig): bytes -> PinReply<()> {
    data =>
      match cfg.json.pinReceiving.parse(data)
      case None => ReplyUnreadable
      case Some(PinAccepted) => ReplyOk(())
      case Some(PinWanted) => ReplyWanted
      case Some(PinTriesExceeded) => ReplyExceeded
  }

  function SenderPrompting(cfg: SenderConfig, nonce: bytes, token: string, guesses: seq<string>, q: seq<Message>): S.Next {
    var n := S.PromptForPin(cfg, nonce, token, guesses);
    S.Then(n.effects, S.RunToClose(cfg, n.next, q))
  }

  function SenderAccepted(cfg: SenderConfig, nonce: bytes, token: string, q: seq<Message>): S.Next {
    var n := ChallengeReceiver(cfg, nonce, token);
    S.Then(n.effects, S.RunToClose(cfg, n.next, q))
  }

  lemma {:induction false} SenderPromptsOnce(cfg: SenderConfig, nonce: bytes, token: string, guesses: seq<string>, q: seq<Message>)
    requires guesses != [] && q != []
    ensures var n := S.PromptForPin(cfg, nonce, token, guesses);
      var r := S.React(cfg, n.next, Some(q[0]));
      n.effects == Prompting() + [PinAttempt(cfg.json, guesses[0])]
      && SenderPrompting(cfg, nonce, token, guesses, q) == S.Then(n.effects, S.Then(r.effects, S.RunToClose(cfg, r.next, q[1..])))
  {
    S.RunToCloseFirst(cfg, S.PromptForPin(cfg, nonce, token, guesses).next, q);
  }

  lemma {:induction false} SenderGetsVerdict(cfg: SenderConfig, nonce: bytes, token: string, guesses: seq<string>, q: seq<Message>)
    requires guesses != [] && q != [] && !(q[0].isString && SenderReads(cfg)(q[0].data).ReplyWanted?)
    ensures var h := Handle(cfg.json, false, SenderReads(cfg), guesses, q);
      SenderPrompting(cfg, nonce, token, guesses, q)
      == if h.result.Some? then S.Then(h.effects, SenderAccepted(cfg, nonce, token, h.unread)) else Reaction(h.effects, SenderDone(SendFailed))
  {
    var n := S.PromptForPin(cfg, nonce, token, guesses);
    var r := S.React(cfg, n.next, Some(q[0]));
    SenderPromptsOnce(cfg, nonce, token, guesses, q);
    if !(q[0].isString && SenderReads(cfg)(q[0].data).ReplyOk?) {
      SenderFails(cfg, r.effects, r.next, q[1..]);
      assert n.effects + [] == n.effects;
    }
  }

  /** While the sender gives the receiver's PIN, it does what the prompting loop does. */
  lemma {:induction false} SenderPromptsInLoop(cfg: SenderConfig, nonce: bytes, token: string, guesses: seq<string>, q: seq<Message>)
    ensures var h := Handle(cfg.json, false, SenderReads(cfg), guesses, q);
      SenderPrompting(cfg, nonce, token, guesses, q)
      == if h.result.Some? then S.Then(h.effects, SenderAccepted(cfg, nonce, token, h.unread)) else Reaction(h.effects, SenderDone(SendFailed))
    decreases |guesses|
  {
    if guesses == [] || q == [] {
      var n := S.PromptForPin(cfg, nonce, token, guesses);
      SenderFails(cfg, n.effects, n.next, q);
      assert Prompting() + [] == Prompting();
    } else if q[0].isString && SenderReads(cfg)(q[0].data).ReplyWanted? {
      SenderPromptsOnce(cfg, nonce, token, guesses, q);
      SenderPromptsInLoop(cfg, nonce, token, guesses[1..], q[1..]);
      var h := Handle(cfg.json, false, SenderReads(cfg), guesses[1..], q[1..]);
      Associative(Prompting() + [PinAttempt(cfg.json, guesses[0])], h.effects, SenderAccepted(cfg, nonce, token, h.unread).effects);
    } else {
      SenderGetsVerdict(cfg, nonce, token, guesses, q);
    }
  }

  /** How the receiver reads the sender's verdict on an attempt. */
  function ReceiverReads(cfg: ReceiverConfig): bytes -> PinReply<seq<FileDto>> {
    data =>
      match cfg.json.pinSending.parse(data)
      case None => ReplyUnreadable
      case Some(Files(files)) => ReplyOk(files)
      case Some(SendingPinWanted) => ReplyWanted
      case Some(SendingPinTriesExceeded) => ReplyExceeded
  }

  /** A chunked verdict is complete at the next string message, or when the channel is closed. */
  lemma {:induction false} VerdictIsGathered(cfg: ReceiverConfig, nonce: bytes, guesses: seq<string>, buffer: bytes, q: seq<Message>)
    ensures var n := R.OnPinReply(cfg, nonce, guesses, buffer + Gathered(q), None);
      R.RunToClose(cfg, ReceiverCtl.AwaitPinReply(nonce, guesses, buffer), q)
      == R.Then(n.effects, R.RunToClose(cfg, n.next, AfterGathering(q)))
    decreases |q|
  {
    var ctl := ReceiverCtl.AwaitPinReply(nonce, guesses, buffer);
    if q == [] {
      assert buffer + [] == buffer;
      R.RunToCloseLast(cfg, ctl, q);
      R.RunToCloseLast(cfg, R.OnPinReply(cfg, nonce, guesses, buffer, None).next, q);
    } else {
      R.RunToCloseFirst(cfg, ctl, q);
      if q[0].isString {
        assert buffer + [] == buffer;
      } else {
        VerdictIsGathered(cfg, nonce, guesses, buffer + q[0].data, q[1..]);
        Associative(buffer, q[0].data, Gathered(q[1..]));
        var n := R.RunToClose(cfg, ReceiverCtl.AwaitPinReply(nonce, guesses, buffer + q[0].data), q[1..]);
        assert [] + n.effects == n.effects;
      }
    }
  }

  function ReceiverPrompting(cfg: ReceiverConfig, nonce: bytes, guesses: seq<string>, q: seq<Message>): R.Next {
    var n := R.PromptForPin(cfg, nonce, guesses);
    R.Then(n.effects, R.RunToClose(cfg, n.next, q))
  }

  function ReceiverChoosing(cfg: ReceiverConfig, nonce: bytes, files: seq<FileDto>, q: seq<Message>): R.Next {
    var n := Choose(cfg, nonce, files);
    R.Then(n.effects, R.RunToClose(cfg, n.next, q))
  }

  /** While the receiver gives the sender's PIN, it does what the prompting loop does on chunked verdicts. */
  lemma {:induction false} ReceiverPromptsInLoop(cfg: ReceiverConfig, nonce: bytes, guesses: seq<string>, q: seq<Message>)
    ensures var h := Handle(cfg.json, true, ReceiverReads(cfg), guesses, q);
      ReceiverPrompting(cfg, nonce, guesses, q)
      == if h.result.Some? then R.Then(h.effects, ReceiverChoosing(cfg, nonce, h.result.value, h.unread))
         else Reaction(h.effects, ReceiverDone(ReceiveFailed))
    decreases |guesses|
  {
    var n := R.PromptForPin(cfg, nonce, guesses);
    if guesses == [] {
      ReceiverFails(cfg, n.effects, n.next, q);
      assert Prompting() + [] == Prompting();
    } else {
      VerdictIsGathered(cfg, nonce, guesses[1..], [], q);
      assert [] + Gathered(q) == Gathered(q);
      var r, later := R.OnPinReply(cfg, nonce, guesses[1..], Gathered(q), None), AfterGathering(q);
      var reply := ReceiverReads(cfg)(Gathered(q));
      if reply.ReplyWanted? {
        ReceiverPromptsInLoop(cfg, nonce, guesses[1..], later);
        var h := Handle(cfg.json, true, ReceiverReads(cfg), guesses[1..], later);
        if h.result.Some? {
          Associative(n.effects, h.effects, ReceiverChoosing(cfg, nonce, h.result.value, h.unread).effects);
        }
      } else if !reply.ReplyOk? {
        ReceiverFails(cfg, r.effects, r.next, later);
        assert n.effects + [] == n.effects;
      }
    }
  }
}
