/** What the sender gives away to whoever is on the other side, whatever messages arrive. */
module SenderSafety {
  import opened Prelude
  import opened Model
  import opened Channel
  import opened Framing
  import opened TwoTasks
  import opened Protocol
  import opened Pin
  import opened S = Sender
  import opened TaskLoops
  import Base64
  import Token

  /** A sender and everything it will ever receive. */
  datatype Dialogue = Dialogue(cfg: SenderConfig, q: seq<Message>)
  {
    /** The first message is a nonce of acceptable length. */
    predicate Greeted() {
      |q| > 0 && ReceiveNonce(cfg.json, Some(q[0])).Some?
    }

    function Nonce(): bytes
      requires Greeted()
    {
      cfg.nonce + ReceiveNonce(cfg.json, Some(q[0])).value
    }

    function Reply(): Option<TokenResponse> {
      if |q| > 1 && q[1].isString then cfg.json.tokenResponse.parse(q[1].data) else None
    }

    /** The second message brings a token, signed with the expected key if there is one. */
    predicate Identified() {
      && Greeted() && Reply().Some? && !Reply().value.TokenInvalidSignature?
      && (cfg.expecting.Some? ==>
           Token.VerifyTokenNonce(cfg.hash, cfg.expecting.value, Reply().value.token, Nonce()) == Token.Accepted)
    }

    function PinReplyAt(i: nat): Option<PinReceivingResponse> {
      if i < |q| && q[i].isString then cfg.json.pinReceiving.parse(q[i].data) else None
    }

    /** Messages 2 to `a - 1` let the sender past the receiver's PIN: each but the last asks again, and the user has an answer each time. */
    ghost predicate PastReceiver(a: nat)
      requires Identified()
    {
      if Reply().value.TokenOk? then a == 2
      else
        && 3 <= a <= |q| && a - 2 <= |cfg.guesses|
        && (forall i :: 2 <= i < a - 1 ==> PinReplyAt(i) == Some(PinWanted))
        && PinReplyAt(a - 1) == Some(PinAccepted)
    }

    function PinAt(i: nat): Option<string> {
      if i < |q| then cfg.json.pin.parse(q[i].data) else None
    }

    predicate WrongAt(i: nat)
      requires cfg.pin.Some?
    {
      PinAt(i).Some? && PinAt(i).value != cfg.pin.value.pin
    }

    /** Messages `a` to `b - 1` are attempts at the sender's own PIN: no more than allowed, and the last one right. */
    ghost predicate PastSender(a: nat, b: nat) {
      if cfg.pin.None? || cfg.pin.value.pin == "" then b == a
      else
        && a < b <= |q| && b - a <= cfg.pin.value.maxTries
        && (forall i :: a <= i < b - 1 ==> WrongAt(i))
        && PinAt(b - 1) == Some(cfg.pin.value.pin)
    }

    ghost predicate Admits(a: nat, b: nat) {
      Identified() && PastReceiver(a) && PastSender(a, b)
    }

    ghost predicate Admitted() {
      exists a, b :: Admits(a, b)
    }

    /** Everything the sender does, until the channel is closed and it is done. */
    function Effects(): seq<Doing> {
      Start(cfg).effects + RunToClose(cfg, AwaitNonce, q).effects
    }

    /** What it has done when it has read what there is, and the channel is still open. */
    function EffectsSoFar(): seq<Doing> {
      Start(cfg).effects + Run(SenderTask(cfg), AwaitNonce, q).effects
    }
  }

  /** The status the sender announces right before it sends its file list, and only then. */
  const CONNECTED: Doing := Announce(Connected)

  lemma {:induction false} SendingTellsNothing(ms: seq<Message>)
    ensures CONNECTED !in SendAll<Event>(ms)
  {
    if ms != [] {
      SendingTellsNothing(ms[1..]);
    }
  }

  lemma {:induction false} NoticesDoNotConnect(cfg: SenderConfig)
    ensures var n := NoticesOf(r => Notice(cfg, r)); CONNECTED !in n.wanted && CONNECTED !in n.exceeded
  {
    SendingTellsNothing(Notice(cfg, NoticeWanted));
    SendingTellsNothing(Notice(cfg, NoticeExceeded));
  }

  // A run from message `j` on, to the close

  function From(d: Dialogue, ctl: SenderCtl, j: nat): seq<Doing>
    requires j <= |d.q|
  {
    RunToClose(d.cfg, ctl, d.q[j..]).effects
  }

  lemma {:induction false} FromNothing(d: Dialogue, ctl: SenderCtl, j: nat)
    requires j <= |d.q| && (ctl.SenderDone? || (j == |d.q| && BeforeList(ctl)))
    ensures From(d, ctl, j) == []
  {
    RunToCloseLast(d.cfg, ctl, d.q[j..]);
    CloseBeforeList(d.cfg, ctl);
  }

  lemma {:induction false} CloseBeforeList(cfg: SenderConfig, ctl: SenderCtl)
    requires BeforeList(ctl)
    ensures UponClose(cfg, ctl) == Reaction([], if ctl.SenderDone? then ctl else SenderDone(SendFailed))
  {
    if !ctl.SenderDone? {
      assert UponClose(cfg, SenderDone(SendFailed)) == Reaction([], SenderDone(SendFailed));
    }
  }

  lemma {:induction false} FromStep(d: Dialogue, ctl: SenderCtl, j: nat)
    requires j < |d.q| && !ctl.SenderDone?
    ensures var r := React(d.cfg, ctl, Some(d.q[j]));
      From(d, ctl, j) == r.effects + From(d, r.next, j + 1)
  {
    RunToCloseFirst(d.cfg, ctl, d.q[j..]);
    assert d.q[j..][0] == d.q[j] && d.q[j..][1..] == d.q[j + 1..];
  }

  // The receiver's PIN

  /** The prompting loop on what follows the token. */
  function Prompted(d: Dialogue): Handled<()>
    requires d.Identified()
  {
    Handle(d.cfg.json, false, SenderReads(d.cfg), d.cfg.guesses, d.q[2..])
  }

  lemma {:induction false} RepliesAreMessages(q: seq<Message>, k: nat)
    ensures AfterReplies(false, q, k) == if k <= |q| then q[k..] else []
    decreases k
  {
    if k > 0 {
      RepliesAreMessages(if q == [] then [] else q[1..], k - 1);
      if 0 < k <= |q| {
        assert q[1..][k - 1..] == q[k..];
      }
    }
  }

  lemma {:induction false} VerdictIsReply(d: Dialogue, k: nat)
    requires |d.q| >= 2
    ensures var v := VerdictAt(false, SenderReads(d.cfg), d.q[2..], k);
      && (IsWanted(v) <==> d.PinReplyAt(k + 2) == Some(PinWanted))
      && (v.Some? && v.value.ReplyOk? <==> d.PinReplyAt(k + 2) == Some(PinAccepted))
  {
    RepliesAreMessages(d.q[2..], k);
    if k < |d.q[2..]| {
      assert d.q[2..][k..][0] == d.q[k + 2];
    }
  }

  /** How often the receiver asks again before it says something else. */
  function Refusals(d: Dialogue): nat
    requires |d.q| >= 2
  {
    AskedAgain(false, SenderReads(d.cfg), d.q[2..], |d.cfg.guesses|)
  }

  predicate IsWantedAt(d: Dialogue, i: nat) {
    d.PinReplyAt(i) == Some(PinWanted)
  }

  ghost predicate WantedUpTo(d: Dialogue, n: nat) {
    forall i: nat :: 2 <= i < n ==> IsWantedAt(d, i)
  }

  lemma {:induction false} RefusalsAreReplies(d: Dialogue)
    requires |d.q| >= 2
    ensures var k := Refusals(d);
      k <= |d.cfg.guesses| && WantedUpTo(d, k + 2) && (k < |d.cfg.guesses| ==> !IsWantedAt(d, k + 2))
  {
    var k := Refusals(d);
    VerdictIsReply(d, k);
    forall i: nat | 2 <= i < k + 2 ensures IsWantedAt(d, i) {
      VerdictIsReply(d, i - 2);
    }
  }

  lemma {:induction false} PromptedIsExact(d: Dialogue)
    requires d.Identified()
    ensures var h, k := Prompted(d), Refusals(d);
      && (h.result.Some? <==> k < |d.cfg.guesses| && d.PinReplyAt(k + 2) == Some(PinAccepted))
      && (h.result.Some? ==> k + 3 <= |d.q| && h.unread == d.q[k + 3..])
  {
    var rest, k := d.q[2..], Refusals(d);
    HandleIsExact(d.cfg.json, false, SenderReads(d.cfg), d.cfg.guesses, rest);
    VerdictIsReply(d, k);
    if Prompted(d).result.Some? {
      RepliesAreMessages(rest, k + 1);
      assert k + 2 < |d.q|;
      assert rest[k + 1..] == d.q[k + 3..];
    }
  }

  /** There is one first reply that does not ask again. */
  lemma {:induction false} FirstOther(d: Dialogue, i: nat, j: nat)
    requires 2 <= i && 2 <= j && WantedUpTo(d, i) && WantedUpTo(d, j) && !IsWantedAt(d, i) && !IsWantedAt(d, j)
    ensures i == j
  {
  }

  lemma {:induction false} PastMeans(d: Dialogue, a: nat)
    requires d.Identified() && d.Reply().value.TokenPinRequired?
    ensures d.PastReceiver(a) <==>
      3 <= a <= |d.q| && a - 2 <= |d.cfg.guesses| && WantedUpTo(d, a - 1) && d.PinReplyAt(a - 1) == Some(PinAccepted)
  {
    if d.PastReceiver(a) {
      forall i: nat | 2 <= i < a - 1 ensures IsWantedAt(d, i) {
      }
    }
    if 3 <= a && WantedUpTo(d, a - 1) {
      forall i | 2 <= i < a - 1 ensures d.PinReplyAt(i) == Some(PinWanted) {
        assert IsWantedAt(d, i);
      }
    }
  }

  /** The loop ends well exactly if the receiver lets the sender past its PIN, and what follows is unread. */
  lemma {:induction false} PromptedIfPast(d: Dialogue, a: nat)
    requires d.Identified() && d.Reply().value.TokenPinRequired?
    ensures d.PastReceiver(a) ==> Prompted(d).result.Some? && a <= |d.q| && Prompted(d).unread == d.q[a..]
    ensures Prompted(d).result.Some? ==> |Prompted(d).unread| <= |d.q| && d.PastReceiver(|d.q| - |Prompted(d).unread|)
  {
    var k := Refusals(d);
    RefusalsAreReplies(d);
    PromptedIsExact(d);
    PastMeans(d, a);
    PastMeans(d, k + 3);
    if d.PastReceiver(a) {
      assert a - 1 < k + 2 ==> IsWantedAt(d, a - 1);
      FirstOther(d, a - 1, k + 2);
    }
  }

  lemma {:induction false} PromptingDoesNotConnect(json: Json, parse: bytes -> PinReply<()>, answers: seq<string>, q: seq<Message>)
    ensures CONNECTED !in Handle(json, false, parse, answers, q).effects
    decreases |answers|
  {
    if answers != [] {
      PromptingDoesNotConnect(json, parse, answers[1..], if q == [] then [] else q[1..]);
    }
  }

  // The sender's own PIN

  /** The verifying loop on what follows message `a`. */
  function Verified(d: Dialogue, a: nat): Verification
    requires d.cfg.pin.Some? && a <= |d.q|
  {
    Verify(d.cfg.json, d.cfg.pin.value, NoticesOf(r => Notice(d.cfg, r)), "", 0, true, d.q[a..])
  }

  lemma {:induction false} PastIsRight(d: Dialogue, a: nat, b: nat)
    requires d.cfg.pin.Some? && d.cfg.pin.value.pin != "" && a <= |d.q|
    ensures d.PastSender(a, b) <==> b >= a && RightAfter(d.cfg.json, d.cfg.pin.value, d.q[a..], d.cfg.pin.value.maxTries, b - a)
  {
    var rest, json, pin := d.q[a..], d.cfg.json, d.cfg.pin.value;
    if a <= b <= |d.q| {
      assert forall i :: a <= i < |d.q| ==> d.q[i] == rest[i - a];
      assert forall i :: 0 <= i < |rest| ==> rest[i] == d.q[i + a];
    }
    if a < b <= |d.q| && RightAfter(json, pin, rest, pin.maxTries, b - a) {
      forall i | a <= i < b - 1 ensures d.WrongAt(i) {
        assert json.pin.parse(rest[i - a].data).Some?;
      }
    }
    if d.PastSender(a, b) {
      forall i | 0 <= i < b - a - 1 ensures json.pin.parse(rest[i].data).Some? && json.pin.parse(rest[i].data).value != pin.pin {
        assert d.WrongAt(i + a);
      }
    }
  }

  /** The loop ends well exactly if the receiver gets past the sender's PIN, and what follows is unread. */
  lemma {:induction false} VerifiedIfPast(d: Dialogue, a: nat, b: nat)
    requires d.cfg.pin.Some? && a <= |d.q|
    ensures d.PastSender(a, b) ==> Verified(d, a).ok && b <= |d.q| && Verified(d, a).unread == d.q[b..]
    ensures Verified(d, a).ok ==> d.PastSender(a, |d.q| - |Verified(d, a).unread|)
  {
    var pin, rest := d.cfg.pin.value, d.q[a..];
    if pin.pin != "" {
      VerifiesIff(d.cfg.json, pin, NoticesOf(r => Notice(d.cfg, r)), true, rest);
      PastIsRight(d, a, b);
      if d.PastSender(a, b) {
        assert RightAfter(d.cfg.json, pin, rest, pin.maxTries, b - a);
        assert rest[b - a..] == d.q[b..];
      }
      if Verified(d, a).ok {
        var m: nat :| RightAfter(d.cfg.json, pin, rest, pin.maxTries, m);
        PastIsRight(d, a, a + m);
      }
    }
  }

  lemma {:induction false} VerifyingDoesNotConnect(cfg: SenderConfig, pin: PinConfig, remote: string, tries: nat, notice: bool, q: seq<Message>)
    ensures CONNECTED !in Verify(cfg.json, pin, NoticesOf(r => Notice(cfg, r)), remote, tries, notice, q).effects
    decreases |q|
  {
    NoticesDoNotConnect(cfg);
    if remote != pin.pin && tries < pin.maxTries && q != [] && cfg.json.pin.parse(q[0].data).Some? {
      VerifyingDoesNotConnect(cfg, pin, cfg.json.pin.parse(q[0].data).value, tries + 1, false, q[1..]);
    }
  }

  // The course of a dialogue

  /** What the sender does about its own PIN from message `a` on, before it sends the file list. */
  function Challenging(d: Dialogue, a: nat): seq<Doing>
    requires a <= |d.q|
  {
    if d.cfg.pin.None? then [] else [Announce(PinRequired)] + Verified(d, a).effects
  }

  /** What it does from the file list on, which it sends after message `b - 1`. */
  function Listing(d: Dialogue, b: nat): seq<Doing>
    requires d.Identified() && b <= |d.q|
  {
    SenderPassed(d.cfg, d.Nonce(), d.Reply().value.token, d.q[b..]).effects
  }

  /** From message `a` on, once the sender is past the receiver's PIN. */
  function Accepted(d: Dialogue, a: nat): seq<Doing>
    requires d.Identified() && a <= |d.q|
  {
    SenderAccepted(d.cfg, d.Nonce(), d.Reply().value.token, d.q[a..]).effects
  }

  lemma {:induction false} AcceptedCourse(d: Dialogue, a: nat, b: nat)
    requires d.Identified() && a <= |d.q|
    ensures d.PastSender(a, b) ==> b <= |d.q| && Accepted(d, a) == Challenging(d, a) + Listing(d, b)
    ensures (forall b :: !d.PastSender(a, b)) ==> Accepted(d, a) == Challenging(d, a)
  {
    var nonce, token, rest := d.Nonce(), d.Reply().value.token, d.q[a..];
    if d.cfg.pin.None? {
      assert d.PastSender(a, a) && [] + Listing(d, a) == Listing(d, a);
    } else {
      var check, v := CheckPin(d.cfg, d.cfg.pin.value, nonce, token, "", 0, true), Verified(d, a);
      SenderVerifies(d.cfg, d.cfg.pin.value, nonce, token, "", 0, true, rest);
      Associative([Announce(PinRequired)], check.effects, RunToClose(d.cfg, check.next, rest).effects);
      VerifiedIfPast(d, a, b);
      if v.ok {
        Associative([Announce(PinRequired)], v.effects, SenderPassed(d.cfg, nonce, token, v.unread).effects);
      }
    }
  }

  lemma {:induction false} ChallengingDoesNotConnect(d: Dialogue, a: nat)
    requires a <= |d.q|
    ensures CONNECTED !in Challenging(d, a)
  {
    if d.cfg.pin.Some? {
      VerifyingDoesNotConnect(d.cfg, d.cfg.pin.value, "", 0, true, d.q[a..]);
    }
  }

  /** What the sender does about the receiver's PIN. */
  function Prompts(d: Dialogue): seq<Doing>
    requires d.Identified()
  {
    if d.Reply().value.TokenOk? then [] else Prompted(d).effects
  }

  lemma {:induction false} UnaskedCourse(d: Dialogue)
    requires d.Identified() && d.Reply().value.TokenOk?
    ensures From(d, AwaitToken(d.Nonce()), 1) == Accepted(d, 2)
  {
    FromStep(d, AwaitToken(d.Nonce()), 1);
  }

  lemma {:induction false} AskedCourse(d: Dialogue)
    requires d.Identified() && d.Reply().value.TokenPinRequired?
    ensures From(d, AwaitToken(d.Nonce()), 1)
         == SenderPrompting(d.cfg, d.Nonce(), d.Reply().value.token, d.cfg.guesses, d.q[2..]).effects
  {
    FromStep(d, AwaitToken(d.Nonce()), 1);
  }

  /** What follows the token. */
  lemma {:induction false} TokenCourse(d: Dialogue, a: nat)
    requires d.Identified()
    ensures d.PastReceiver(a) ==> a <= |d.q| && From(d, AwaitToken(d.Nonce()), 1) == Prompts(d) + Accepted(d, a)
    ensures (forall a :: !d.PastReceiver(a)) ==> From(d, AwaitToken(d.Nonce()), 1) == Prompts(d)
  {
    if d.Reply().value.TokenOk? {
      UnaskedCourse(d);
      assert d.PastReceiver(2) && [] + Accepted(d, 2) == Accepted(d, 2);
    } else {
      AskedCourse(d);
      SenderPromptsInLoop(d.cfg, d.Nonce(), d.Reply().value.token, d.cfg.guesses, d.q[2..]);
      PromptedIfPast(d, a);
    }
  }

  /** What the sender does before it sends its file list: it opens the dialogue, gives PINs, and challenges the receiver. */
  function Before(d: Dialogue, a: nat): seq<Doing>
    requires d.Identified() && a <= |d.q|
  {
    SendAll(Opening(d)) + Prompts(d) + Challenging(d, a)
  }

  lemma {:induction false} BeforeDoesNotConnect(d: Dialogue, a: nat)
    requires d.Identified() && a <= |d.q|
    ensures CONNECTED !in SendAll(Opening(d)) + Prompts(d) && CONNECTED !in Before(d, a)
  {
    SendingTellsNothing(Opening(d));
    PromptingDoesNotConnect(d.cfg.json, SenderReads(d.cfg), d.cfg.guesses, d.q[2..]);
    ChallengingDoesNotConnect(d, a);
  }

  /** An admitted receiver gets the file list, and the rest of the dialogue follows. */
  lemma {:induction false} AdmittedCourse(d: Dialogue, a: nat, b: nat)
    requires d.Admits(a, b)
    ensures a <= |d.q| && b <= |d.q| && d.Effects() == Before(d, a) + Listing(d, b)
  {
    TokenCourse(d, a);
    AcceptedCourse(d, a, b);
    OpeningComesFirst(d);
    Associative(SendAll(Opening(d)), Prompts(d), Challenging(d, a) + Listing(d, b));
    Associative(SendAll(Opening(d)) + Prompts(d), Challenging(d, a), Listing(d, b));
  }

  /** Who is identified and not admitted does not. */
  lemma {:induction false} RefusedCourse(d: Dialogue)
    requires d.Identified() && !d.Admitted()
    ensures CONNECTED !in d.Effects()
  {
    OpeningComesFirst(d);
    BeforeDoesNotConnect(d, 2);
    if a: nat :| d.PastReceiver(a) {
      TokenCourse(d, a);
      forall b: nat ensures !d.PastSender(a, b) {
        assert !d.Admits(a, b);
      }
      AcceptedCourse(d, a, 0);
      ChallengingDoesNotConnect(d, a);
    } else {
      TokenCourse(d, 2);
    }
  }

  /**
   Whatever arrives before the channel is closed: the sender announces its file list if and only if it was
   greeted with a nonce, the token passed, the receiver accepted one of the
   user's PINs if it asked for any, and one of the allowed attempts at the
   sender's own PIN was right.
   */
  lemma {:induction false} ListOnlyAfterAdmission(d: Dialogue)
    ensures CONNECTED in d.Effects() <==> d.Admitted()
  {
    if d.Admitted() {
      var a, b :| d.Admits(a, b);
      AdmittedCourse(d, a, b);
      assert CONNECTED in SendFileList(d.cfg, d.Nonce(), d.Reply().value.token).effects;
    } else if d.Identified() {
      RefusedCourse(d);
    } else {
      OpeningIsExact(d);
      SendingTellsNothing(Opening(d));
    }
  }

  // Nothing else leaks

  /** The same sender with other files. */
  function WithOtherFiles(cfg: SenderConfig, files: seq<FileDto>, transfers: seq<Transfer>): SenderConfig {
    cfg.(files := files, transfers := transfers)
  }

  predicate BeforeList(ctl: SenderCtl) {
    ctl.AwaitNonce? || ctl.AwaitToken? || ctl.AwaitPinReply? || ctl.AwaitPin? || ctl.SenderDone?
  }

  lemma {:induction false} ChecksAlike(cfg: SenderConfig, other: SenderConfig, pin: PinConfig, nonce: bytes, token: string,
                                       remote: string, tries: nat, notice: bool)
    requires other == WithOtherFiles(cfg, other.files, other.transfers)
    ensures var n := CheckPin(cfg, pin, nonce, token, remote, tries, notice);
      CONNECTED in n.effects || (n == CheckPin(other, pin, nonce, token, remote, tries, notice) && BeforeList(n.next))
  {
    assert Notice(cfg, NoticeWanted) == Notice(other, NoticeWanted);
    assert Notice(cfg, NoticeExceeded) == Notice(other, NoticeExceeded);
    assert CONNECTED in SendFileList(cfg, nonce, token).effects;
  }

  lemma {:induction false} ChallengesAlike(cfg: SenderConfig, other: SenderConfig, nonce: bytes, token: string)
    requires other == WithOtherFiles(cfg, other.files, other.transfers)
    ensures var n := ChallengeReceiver(cfg, nonce, token);
      CONNECTED in n.effects || (n == ChallengeReceiver(other, nonce, token) && BeforeList(n.next))
  {
    if cfg.pin.None? {
      assert CONNECTED in SendFileList(cfg, nonce, token).effects;
    } else {
      ChecksAlike(cfg, other, cfg.pin.value, nonce, token, "", 0, true);
    }
  }

  lemma {:induction false} ReactsAlike(cfg: SenderConfig, other: SenderConfig, ctl: SenderCtl, m: Message)
    requires other == WithOtherFiles(cfg, other.files, other.transfers) && BeforeList(ctl)
    ensures var r := React(cfg, ctl, Some(m));
      CONNECTED in r.effects || (r == React(other, ctl, Some(m)) && BeforeList(r.next))
  {
    if ctl.AwaitToken? {
      var reply := cfg.json.tokenResponse.parse(m.data);
      if m.isString && reply.Some? && reply.value.TokenOk? {
        ChallengesAlike(cfg, other, ctl.nonce, reply.value.token);
      }
    } else if ctl.AwaitPinReply? {
      ChallengesAlike(cfg, other, ctl.nonce, ctl.remoteToken);
    } else if ctl.AwaitPin? && cfg.pin.Some? && cfg.json.pin.parse(m.data).Some? {
      ChecksAlike(cfg, other, cfg.pin.value, ctl.nonce, ctl.remoteToken, cfg.json.pin.parse(m.data).value, ctl.tries + 1, false);
    }
  }

  lemma {:induction false} RunsAlike(cfg: SenderConfig, other: SenderConfig, ctl: SenderCtl, q: seq<Message>)
    requires other == WithOtherFiles(cfg, other.files, other.transfers) && BeforeList(ctl)
    ensures var n := RunToClose(cfg, ctl, q); CONNECTED in n.effects || n == RunToClose(other, ctl, q)
    decreases |q|
  {
    if ctl.SenderDone? || q == [] {
      RunToCloseLast(cfg, ctl, q);
      RunToCloseLast(other, ctl, q);
      CloseBeforeList(cfg, ctl);
      CloseBeforeList(other, ctl);
    } else {
      RunToCloseFirst(cfg, ctl, q);
      RunToCloseFirst(other, ctl, q);
      ReactsAlike(cfg, other, ctl, q[0]);
      var r := React(cfg, ctl, Some(q[0]));
      if CONNECTED !in r.effects {
        RunsAlike(cfg, other, r.next, q[1..]);
      }
    }
  }

  // What the sender sends before it knows whom it talks to

  /** A nonce is taken from a string message that spells 16 to 128 bytes, and from no other. */
  lemma {:induction false} NonceIsReceived(json: Json, m: Message, nonce: bytes)
    ensures ReceiveNonce(json, Some(m)) == Some(nonce)
      <==> m.isString && json.nonce.parse(m.data) == Some(Base64.Encode(nonce)) && 16 <= |nonce| <= 128
  {
    if m.isString && json.nonce.parse(m.data).Some? {
      Base64.DecodeInvertsEncode(json.nonce.parse(m.data).value, nonce);
    }
  }

  function Opening(d: Dialogue): seq<Message> {
    [StringMessage(d.cfg.json.nonce.show(Base64.Encode(d.cfg.nonce)))]
    + if !d.Greeted() then []
      else [StringMessage(d.cfg.json.tokenRequest.show(Token.GenerateTokenNonce(d.cfg.hash, d.cfg.key, d.Nonce())))]
  }

  lemma {:induction false} SendingFirst(m: Message, ms: seq<Message>)
    ensures SendAll<Event>([m] + ms) == [Send(m)] + SendAll<Event>(ms)
  {
    assert ([m] + ms)[1..] == ms;
  }

  /** What follows the nonce. */
  lemma {:induction false} AfterNonce(d: Dialogue)
    ensures SendAll(Opening(d)[1..]) <= From(d, AwaitNonce, 0)
    ensures !d.Identified() ==> From(d, AwaitNonce, 0) == SendAll(Opening(d)[1..])
  {
    if d.q == [] {
      FromNothing(d, AwaitNonce, 0);
    } else {
      FromStep(d, AwaitNonce, 0);
      if !d.Greeted() {
        FromNothing(d, SenderDone(SendFailed), 1);
      } else {
        assert Opening(d)[1..] == [Opening(d)[1]] + [];
        SendingFirst(Opening(d)[1], []);
        if !d.Identified() {
          NotIdentified(d);
        }
      }
    }
  }

  lemma {:induction false} TokenIsSent(d: Dialogue)
    requires d.Identified()
    ensures From(d, AwaitNonce, 0) == [Send(Opening(d)[1])] + From(d, AwaitToken(d.Nonce()), 1)
  {
    FromStep(d, AwaitNonce, 0);
  }

  lemma {:induction false} BothSent(a: Message, b: Message)
    ensures SendAll<Event>([a] + [b]) == [Send(a)] + [Send(b)]
  {
    assert [b] == [b] + [];
    SendingFirst(a, [b]);
    SendingFirst(b, []);
  }

  lemma {:induction false} OpeningComesFirst(d: Dialogue)
    requires d.Identified()
    ensures d.Effects() == SendAll(Opening(d)) + From(d, AwaitToken(d.Nonce()), 1)
  {
    var rest := From(d, AwaitToken(d.Nonce()), 1);
    assert d.q[0..] == d.q;
    TokenIsSent(d);
    BothSent(Opening(d)[0], Opening(d)[1]);
    assert d.Effects() == [Send(Opening(d)[0])] + From(d, AwaitNonce, 0);
    Associative([Send(Opening(d)[0])], [Send(Opening(d)[1])], rest);
  }

  /**
   For any messages up to the close: the sender sends its nonce, then, once it
   has one, its own token for both, and nothing else and no word to its
   application unless the receiver is identified.
   */
  lemma {:induction false} OpeningIsExact(d: Dialogue)
    ensures SendAll(Opening(d)) <= d.Effects()
    ensures !d.Identified() ==> d.Effects() == SendAll(Opening(d))
  {
    assert d.q[0..] == d.q;
    AfterNonce(d);
    assert Opening(d) == [Opening(d)[0]] + Opening(d)[1..];
    SendingFirst(Opening(d)[0], Opening(d)[1..]);
    assert d.Effects() == [Send(Opening(d)[0])] + From(d, AwaitNonce, 0);
  }

  lemma {:induction false} NotIdentified(d: Dialogue)
    requires d.Greeted() && !d.Identified()
    ensures From(d, AwaitToken(d.Nonce()), 1) == []
  {
    if |d.q| == 1 {
      FromNothing(d, AwaitToken(d.Nonce()), 1);
    } else {
      FromStep(d, AwaitToken(d.Nonce()), 1);
      FromNothing(d, SenderDone(SendFailed), 2);
    }
  }

  // While the channel is open

  lemma {:induction false} FileDoesNotConnect(cfg: SenderConfig, granted: map<string, string>, t: Transfer)
    ensures CONNECTED !in SendFile(cfg, granted, t)
  {
    SendingTellsNothing(Binaries(Chunks(Concat(t.pieces))));
  }

  lemma {:induction false} FilesDoNotConnect(cfg: SenderConfig, granted: map<string, string>, ts: seq<Transfer>)
    ensures CONNECTED !in SendEach(cfg, granted, ts)
  {
    if ts != [] {
      FileDoesNotConnect(cfg, granted, ts[0]);
      FilesDoNotConnect(cfg, granted, ts[1..]);
    }
  }

  lemma {:induction false} CloseDoesNotConnect(cfg: SenderConfig, ctl: SenderCtl)
    ensures CONNECTED !in UponClose(cfg, ctl).effects
    decreases Patience(ctl)
  {
    if !ctl.SenderDone? {
      var r := React(cfg, ctl, None);
      CloseBringsEnd(cfg, ctl);
      CloseDoesNotConnect(cfg, r.next);
      SelectionDoesNotConnect(cfg, ctl);
    }
  }

  lemma {:induction false} SelectionDoesNotConnect(cfg: SenderConfig, ctl: SenderCtl)
    ensures CONNECTED !in React(cfg, ctl, None).effects
  {
    if ctl.AwaitSelection? {
      var answer := cfg.json.fileList.parse(ctl.buffer);
      if answer.Some? && answer.value.ListOk? {
        FilesDoNotConnect(cfg, answer.value.files, cfg.transfers);
      }
    }
  }

  /**
   While the channel is open, the sender has done a beginning of what it does
   in all, and it has announced its file list if and only if it has admitted
   the receiver.
   */
  lemma {:induction false} WhileOpen(d: Dialogue)
    ensures d.EffectsSoFar() <= d.Effects() && Sends(d.EffectsSoFar()) <= Sends(d.Effects())
    ensures CONNECTED in d.EffectsSoFar() <==> d.Admitted()
  {
    var o := Run(SenderTask(d.cfg), AwaitNonce, d.q);
    var end := UponClose(d.cfg, o.ctl).effects;
    Associative(Start(d.cfg).effects, o.effects, end);
    SendsTellsAppend(d.EffectsSoFar(), end);
    CloseDoesNotConnect(d.cfg, o.ctl);
    ListOnlyAfterAdmission(d);
  }

  /** Who is not admitted learns nothing about the files: with any others, the sender would do exactly the same. */
  lemma {:induction false} NotAdmittedLearnsNothing(d: Dialogue, files: seq<FileDto>, transfers: seq<Transfer>)
    requires !d.Admitted()
    ensures d.Effects() == Dialogue(WithOtherFiles(d.cfg, files, transfers), d.q).Effects()
  {
    ListOnlyAfterAdmission(d);
    RunsAlike(d.cfg, WithOtherFiles(d.cfg, files, transfers), AwaitNonce, d.q);
  }
}
