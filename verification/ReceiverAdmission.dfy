/** What the receiver answers, and when it gets to see a file list, whatever messages arrive. */
module ReceiverAdmission {
  import opened Prelude
  import opened Model
  import opened Channel
  import opened Framing
  import opened TwoTasks
  import opened Protocol
  import opened Pin
  import Sender
  import opened R = Receiver
  import opened TaskLoops
  import Base64
  import Token

  /** A receiver, and everything that arrives before the channel is closed. */
  datatype Hearing = Hearing(cfg: ReceiverConfig, q: seq<Message>) {
    /** The first message brings a nonce. */
    predicate Greeted() {
      |q| > 0 && Sender.ReceiveNonce(cfg.json, Some(q[0])).Some?
    }

    function Nonce(): bytes
      requires Greeted()
    {
      Sender.ReceiveNonce(cfg.json, Some(q[0])).value + cfg.nonce
    }

    /** The token that the second message brings. */
    function Request(): Option<string> {
      if |q| > 1 && q[1].isString then cfg.json.tokenRequest.parse(q[1].data) else None
    }

    /** What verification says of the token, against the expected key if there is one. */
    function Verdict(): Token.Verdict
      requires Greeted() && Request().Some?
    {
      if cfg.expecting.None? then Token.Accepted
      else Token.VerifyTokenNonce(cfg.hash, cfg.expecting.value, Request().value, Nonce())
    }

    predicate Identified() {
      Greeted() && Request().Some? && Verdict() == Token.Accepted
    }

    /** Messages 2 to `b - 1` are attempts at the receiver's PIN: no more than allowed, and the last one right. */
    ghost predicate PastPin(b: nat) {
      2 <= b <= |q| &&
      if cfg.pin.None? || cfg.pin.value.pin == "" then b == 2
      else RightAfter(cfg.json, cfg.pin.value, q[2..], cfg.pin.value.maxTries, b - 2)
    }

    /** From message `b` on, the `k`-th chunked text is a file list, the earlier ones ask for a PIN, and the user has one each time. */
    ghost predicate ListsAt(b: nat, k: nat, files: seq<FileDto>)
      requires b <= |q|
    {
      Lists(cfg, q[b..], k, files)
    }

    ghost predicate Admits(b: nat, k: nat, files: seq<FileDto>) {
      Identified() && PastPin(b) && ListsAt(b, k, files)
    }

    ghost predicate Admitted(files: seq<FileDto>) {
      exists b: nat, k: nat :: Admits(b, k, files)
    }

    /** Everything the receiver does, to the close. */
    function Effects(): seq<Doing> {
      R.Start().effects + RunToClose(cfg, R.Start().next, q).effects
    }

    function NonceReply(): Message {
      StringMessage(cfg.json.nonce.show(Base64.Encode(cfg.nonce)))
    }

    /** The answer to the token request. */
    function TokenAnswer(): seq<Message>
      requires Greeted()
    {
      if Request().None? then []
      else match Verdict()
        case Panicked => []
        case Rejected => [StringMessage(cfg.json.tokenResponse.show(TokenInvalidSignature))]
        case Accepted =>
          var own := Token.GenerateTokenNonce(cfg.hash, cfg.key, Nonce());
          [StringMessage(cfg.json.tokenResponse.show(if cfg.pin.None? then TokenOk(own) else TokenPinRequired(own)))]
    }
  }

  ghost predicate Lists(cfg: ReceiverConfig, rest: seq<Message>, k: nat, files: seq<FileDto>) {
    && k <= |cfg.guesses|
    && (forall i: nat :: i < k ==> IsWanted(VerdictAt(true, ReceiverReads(cfg), rest, i)))
    && VerdictAt(true, ReceiverReads(cfg), rest, k) == Some(ReplyOk(files))
  }

  ghost predicate ListsSomewhere(cfg: ReceiverConfig, rest: seq<Message>, files: seq<FileDto>) {
    exists k: nat :: Lists(cfg, rest, k, files)
  }

  predicate Shown(es: seq<Doing>, files: seq<FileDto>) {
    Tell(FilesListed(files)) in es
  }

  // What shows no list

  lemma {:induction false} SendingShowsNothing(ms: seq<Message>, files: seq<FileDto>)
    ensures !Shown(SendAll<Event>(ms), files)
  {
    if ms != [] {
      SendingShowsNothing(ms[1..], files);
    }
  }

  lemma {:induction false} TransferShowsNothing(cfg: ReceiverConfig, agreed: Agreement, open: Option<string>, verdicts: seq<FileVerdict>, q: seq<Message>, files: seq<FileDto>)
    ensures !Shown(RunToClose(cfg, AwaitFiles(agreed, open, verdicts), q).effects, files)
    decreases |q|
  {
    var ctl := AwaitFiles(agreed, open, verdicts);
    if q == [] {
      RunToCloseLast(cfg, ctl, q);
      RunToCloseLast(cfg, OnFiles(cfg, agreed, open, verdicts, None).next, q);
    } else {
      RunToCloseFirst(cfg, ctl, q);
      var r := OnFiles(cfg, agreed, open, verdicts, Some(q[0]));
      if r.next.AwaitFiles? {
        TransferShowsNothing(cfg, r.next.agreed, r.next.open, r.next.verdicts, q[1..], files);
      } else {
        RunToCloseLast(cfg, r.next, q[1..]);
      }
    }
  }

  lemma {:induction false} PromptingShowsNothing(json: Json, parse: bytes -> PinReply<seq<FileDto>>, answers: seq<string>, q: seq<Message>, files: seq<FileDto>)
    ensures !Shown(Handle(json, true, parse, answers, q).effects, files)
    decreases |answers|
  {
    if answers != [] {
      PromptingShowsNothing(json, parse, answers[1..], AfterGathering(q), files);
    }
  }

  lemma {:induction false} VerifyingShowsNothing(cfg: ReceiverConfig, pin: PinConfig, remote: string, tries: nat, notice: bool, q: seq<Message>, files: seq<FileDto>)
    ensures !Shown(Verify(cfg.json, pin, NoticesOf(r => R.Notice(cfg, r)), remote, tries, notice, q).effects, files)
    decreases |q|
  {
    SendingShowsNothing(R.Notice(cfg, NoticeWanted), files);
    SendingShowsNothing(R.Notice(cfg, NoticeExceeded), files);
    if remote != pin.pin && tries < pin.maxTries && q != [] && cfg.json.pin.parse(q[0].data).Some? {
      VerifyingShowsNothing(cfg, pin, cfg.json.pin.parse(q[0].data).value, tries + 1, false, q[1..], files);
    }
  }

  // The file list

  lemma {:induction false} ChoosingShows(cfg: ReceiverConfig, nonce: bytes, listed: seq<FileDto>, q: seq<Message>, files: seq<FileDto>)
    ensures Shown(ReceiverChoosing(cfg, nonce, listed, q).effects, files) <==> files == listed
  {
    var n := Choose(cfg, nonce, listed);
    match cfg.choice {
      case Select(ids) =>
        var tokens := map id | id in ids :: cfg.fileToken(id);
        SendingShowsNothing(Framed(cfg.json.fileList.show(ListOk(tokens))), files);
        TransferShowsNothing(cfg, Agreement(nonce, listed, tokens), None, cfg.verdicts, q, files);
      case Decline =>
        SendingShowsNothing(Framed(cfg.json.fileList.show(ListDeclined)), files);
        RunToCloseLast(cfg, n.next, q);
      case NoChoice =>
        RunToCloseLast(cfg, n.next, q);
    }
    assert [Announce(Connected), Tell(FilesListed(listed))][1] == Tell(FilesListed(listed));
  }

  /** The `k`-th verdict on the given PINs is a list, after nothing but requests for another, and the user has that many. */
  ghost predicate ListAnswers(cfg: ReceiverConfig, answers: seq<string>, q: seq<Message>, k: nat, files: seq<FileDto>) {
    k < |answers| && WantedBefore(cfg, q, k) && VerdictAt(true, ReceiverReads(cfg), q, k) == Some(ReplyOk(files))
  }

  lemma {:induction false} HandledLists(cfg: ReceiverConfig, answers: seq<string>, q: seq<Message>, files: seq<FileDto>)
    ensures Handle(cfg.json, true, ReceiverReads(cfg), answers, q).result == Some(files)
      <==> exists k: nat :: ListAnswers(cfg, answers, q, k, files)
  {
    var parse := ReceiverReads(cfg);
    var k0 := AskedAgain(true, parse, q, |answers|);
    HandleIsExact(cfg.json, true, parse, answers, q);
    assert WantedBefore(cfg, q, k0);
    forall k: nat | ListAnswers(cfg, answers, q, k, files) ensures k == k0 {
      if k0 < |answers| {
        FirstOther(cfg, q, k, k0);
      }
    }
    assert Handle(cfg.json, true, parse, answers, q).result == Some(files) ==> ListAnswers(cfg, answers, q, k0, files);
  }

  /** There is one first verdict that does not ask for a PIN. */
  lemma {:induction false} FirstOther(cfg: ReceiverConfig, q: seq<Message>, i: nat, j: nat)
    requires WantedBefore(cfg, q, i) && !IsWanted(VerdictAt(true, ReceiverReads(cfg), q, i))
    requires WantedBefore(cfg, q, j) && !IsWanted(VerdictAt(true, ReceiverReads(cfg), q, j))
    ensures i == j
  {
  }

  ghost predicate WantedBefore(cfg: ReceiverConfig, q: seq<Message>, k: nat) {
    forall i: nat :: i < k ==> IsWanted(VerdictAt(true, ReceiverReads(cfg), q, i))
  }

  /** A chunked status is complete at the next string message, or when the channel is closed. */
  lemma {:induction false} StatusIsGathered(cfg: ReceiverConfig, nonce: bytes, buffer: bytes, q: seq<Message>)
    ensures var n := OnPinStatus(cfg, nonce, buffer + Gathered(q), None);
      RunToClose(cfg, AwaitPinStatus(nonce, buffer), q) == R.Then(n.effects, RunToClose(cfg, n.next, AfterGathering(q)))
    decreases |q|
  {
    var ctl := AwaitPinStatus(nonce, buffer);
    if q == [] {
      assert buffer + [] == buffer;
      RunToCloseLast(cfg, ctl, q);
      RunToCloseLast(cfg, OnPinStatus(cfg, nonce, buffer, None).next, q);
    } else {
      RunToCloseFirst(cfg, ctl, q);
      if q[0].isString {
        assert buffer + [] == buffer;
      } else {
        StatusIsGathered(cfg, nonce, buffer + q[0].data, q[1..]);
        Associative(buffer, q[0].data, Gathered(q[1..]));
        var n := RunToClose(cfg, AwaitPinStatus(nonce, buffer + q[0].data), q[1..]);
        assert [] + n.effects == n.effects;
      }
    }
  }

  function StatusRun(cfg: ReceiverConfig, nonce: bytes, q: seq<Message>): seq<Doing> {
    RunToClose(cfg, AwaitPinStatus(nonce, []), q).effects
  }

  lemma {:induction false} LaterVerdict(cfg: ReceiverConfig, q: seq<Message>, k: nat)
    ensures VerdictAt(true, ReceiverReads(cfg), q, k + 1) == VerdictAt(true, ReceiverReads(cfg), AfterGathering(q), k)
  {
    assert AfterReplies(true, q, k + 1) == AfterReplies(true, AfterGathering(q), k);
  }

  lemma {:induction false} OneEarlier(cfg: ReceiverConfig, q: seq<Message>, k: nat, files: seq<FileDto>)
    requires IsWanted(VerdictAt(true, ReceiverReads(cfg), q, 0))
    ensures Lists(cfg, q, k + 1, files) <==> ListAnswers(cfg, cfg.guesses, AfterGathering(q), k, files)
  {
    var later := AfterGathering(q);
    LaterVerdict(cfg, q, k);
    forall i: nat ensures VerdictAt(true, ReceiverReads(cfg), q, i + 1) == VerdictAt(true, ReceiverReads(cfg), later, i) {
      LaterVerdict(cfg, q, i);
    }
    if ListAnswers(cfg, cfg.guesses, later, k, files) {
      forall i: nat | i < k + 1 ensures IsWanted(VerdictAt(true, ReceiverReads(cfg), q, i)) {
        if i > 0 {
          assert IsWanted(VerdictAt(true, ReceiverReads(cfg), later, i - 1));
          assert VerdictAt(true, ReceiverReads(cfg), q, i - 1 + 1) == VerdictAt(true, ReceiverReads(cfg), later, i - 1);
        }
      }
    }
    if Lists(cfg, q, k + 1, files) {
      forall i: nat | i < k ensures IsWanted(VerdictAt(true, ReceiverReads(cfg), later, i)) {
        assert IsWanted(VerdictAt(true, ReceiverReads(cfg), q, i + 1));
      }
    }
  }

  lemma {:induction false} ListsLater(cfg: ReceiverConfig, q: seq<Message>, files: seq<FileDto>)
    requires IsWanted(VerdictAt(true, ReceiverReads(cfg), q, 0))
    ensures ListsSomewhere(cfg, q, files) <==> Handle(cfg.json, true, ReceiverReads(cfg), cfg.guesses, AfterGathering(q)).result == Some(files)
  {
    var later := AfterGathering(q);
    HandledLists(cfg, cfg.guesses, later, files);
    if ListsSomewhere(cfg, q, files) {
      var k: nat :| Lists(cfg, q, k, files);
      assert k != 0;
      OneEarlier(cfg, q, k - 1, files);
      assert ListAnswers(cfg, cfg.guesses, later, k - 1, files);
    }
    if Handle(cfg.json, true, ReceiverReads(cfg), cfg.guesses, later).result == Some(files) {
      var k: nat :| ListAnswers(cfg, cfg.guesses, later, k, files);
      OneEarlier(cfg, q, k, files);
      assert Lists(cfg, q, k + 1, files);
    }
  }

  lemma {:induction false} StatusShows(cfg: ReceiverConfig, nonce: bytes, q: seq<Message>, files: seq<FileDto>)
    ensures Shown(StatusRun(cfg, nonce, q), files) <==> ListsSomewhere(cfg, q, files)
  {
    var later, n := AfterGathering(q), OnPinStatus(cfg, nonce, Gathered(q), None);
    var parse := ReceiverReads(cfg);
    var verdict := VerdictAt(true, parse, q, 0);
    StatusIsGathered(cfg, nonce, [], q);
    assert [] + Gathered(q) == Gathered(q);
    assert verdict == Some(parse(Gathered(q)));
    match verdict.value {
      case ReplyOk(listed) =>
        ChoosingShows(cfg, nonce, listed, later, files);
        assert files == listed ==> Lists(cfg, q, 0, files);
      case ReplyWanted =>
        var h := Handle(cfg.json, true, parse, cfg.guesses, later);
        ReceiverPromptsInLoop(cfg, nonce, cfg.guesses, later);
        PromptingShowsNothing(cfg.json, parse, cfg.guesses, later, files);
        ListsLater(cfg, q, files);
        if h.result.Some? {
          ChoosingShows(cfg, nonce, h.result.value, h.unread, files);
        }
      case _ =>
        RunToCloseLast(cfg, n.next, later);
    }
  }

  // The token request and its answer

  lemma {:induction false} Failing(cfg: ReceiverConfig, es: seq<Doing>, q: seq<Message>)
    ensures R.Then(es, RunToClose(cfg, ReceiverDone(ReceiveFailed), q)) == Reaction(es, ReceiverDone(ReceiveFailed))
  {
    RunToCloseLast(cfg, ReceiverDone(ReceiveFailed), q);
    assert es + [] == es;
  }

  lemma {:induction false} WithoutNonce(d: Hearing)
    requires !d.Greeted()
    ensures d.Effects() == []
  {
    if d.q == [] {
      RunToCloseLast(d.cfg, AwaitNonce, d.q);
      assert UponClose(d.cfg, ReceiverDone(ReceiveFailed)) == Reaction([], ReceiverDone(ReceiveFailed));
    } else {
      RunToCloseFirst(d.cfg, AwaitNonce, d.q);
      Failing(d.cfg, [], d.q[1..]);
    }
  }

  lemma {:induction false} WithNonce(d: Hearing)
    requires d.Greeted()
    ensures d.Effects() == [Send(d.NonceReply())] + RunToClose(d.cfg, AwaitToken(d.Nonce()), d.q[1..]).effects
  {
    RunToCloseFirst(d.cfg, AwaitNonce, d.q);
    var rest := RunToClose(d.cfg, AwaitToken(d.Nonce()), d.q[1..]).effects;
    assert [] + ([Send(d.NonceReply())] + rest) == [Send(d.NonceReply())] + rest;
  }

  lemma {:induction false} WithoutToken(d: Hearing)
    requires d.Greeted() && !d.Identified()
    ensures RunToClose(d.cfg, AwaitToken(d.Nonce()), d.q[1..]).effects == SendAll(d.TokenAnswer())
  {
    var ctl, rest := AwaitToken(d.Nonce()), d.q[1..];
    if rest == [] {
      RunToCloseLast(d.cfg, ctl, rest);
      assert UponClose(d.cfg, ReceiverDone(ReceiveFailed)) == Reaction([], ReceiverDone(ReceiveFailed));
    } else {
      assert rest[0] == d.q[1];
      var r := OnToken(d.cfg, d.Nonce(), Some(d.q[1]));
      RunToCloseFirst(d.cfg, ctl, rest);
      Failing(d.cfg, r.effects, rest[1..]);
      OneSend(d.TokenAnswer());
    }
  }

  lemma {:induction false} OneSend(ms: seq<Message>)
    ensures |ms| == 1 ==> SendAll<Event>(ms) == [Send(ms[0])]
  {
    if |ms| == 1 {
      assert ms[1..] == [];
    }
  }

  /** What an identified sender makes the receiver do: the PIN challenge if a PIN is set, and then the statuses. */
  function Later(d: Hearing): seq<Doing>
    requires d.Identified()
  {
    if d.cfg.pin.None? then StatusRun(d.cfg, d.Nonce(), d.q[2..])
    else
      var v := Verify(d.cfg.json, d.cfg.pin.value, NoticesOf(r => R.Notice(d.cfg, r)), "", 0, false, d.q[2..]);
      [Announce(PinRequired)] + v.effects
      + if v.ok then [Send(StringMessage(d.cfg.json.pinReceiving.show(PinAccepted)))] + StatusRun(d.cfg, d.Nonce(), v.unread) else []
  }

  lemma {:induction false} WithToken(d: Hearing)
    requires d.Identified()
    ensures RunToClose(d.cfg, AwaitToken(d.Nonce()), d.q[1..]).effects == SendAll(d.TokenAnswer()) + Later(d)
  {
    var ctl, rest := AwaitToken(d.Nonce()), d.q[1..];
    assert rest[0] == d.q[1] && rest[1..] == d.q[2..];
    var r := OnToken(d.cfg, d.Nonce(), Some(d.q[1]));
    assert r == ReplyWithToken(d.cfg, d.Nonce());
    RunToCloseFirst(d.cfg, ctl, rest);
    OneSend(d.TokenAnswer());
    if d.cfg.pin.Some? {
      WithPin(d);
    }
  }

  lemma {:induction false} WithPin(d: Hearing)
    requires d.Identified() && d.cfg.pin.Some?
    ensures var n := ReplyWithToken(d.cfg, d.Nonce());
      n.effects + RunToClose(d.cfg, n.next, d.q[2..]).effects == [Send(d.TokenAnswer()[0])] + Later(d)
  {
    var pin, rest := d.cfg.pin.value, d.q[2..];
    var answer: Doing := Send(d.TokenAnswer()[0]);
    var check := CheckPin(d.cfg, pin, d.Nonce(), "", 0, false);
    var v := Verify(d.cfg.json, pin, NoticesOf(r => R.Notice(d.cfg, r)), "", 0, false, rest);
    ReceiverVerifies(d.cfg, pin, d.Nonce(), "", 0, false, rest);
    Associative([answer, Announce(PinRequired)], check.effects, RunToClose(d.cfg, check.next, rest).effects);
    assert check.effects + RunToClose(d.cfg, check.next, rest).effects == ReceiverChecks(d.cfg, pin, d.Nonce(), "", 0, false, rest).effects;
    assert [answer, Announce(PinRequired)] == [answer] + [Announce(PinRequired)];
    var end := if v.ok then [Send(StringMessage(d.cfg.json.pinReceiving.show(PinAccepted)))] + StatusRun(d.cfg, d.Nonce(), v.unread) else [];
    assert ReceiverChecks(d.cfg, pin, d.Nonce(), "", 0, false, rest).effects == v.effects + end;
    Associative([answer], [Announce(PinRequired)], v.effects + end);
    Associative([Announce(PinRequired)], v.effects, end);
  }

  /**
   For any messages up to the close, the receiver's doings are exactly: nothing
   without a nonce; the nonce of its own and the answer to the token request,
   which is a refusal if the token is rejected, nothing if there is none or its
   verification panics, and otherwise its own token; and what an identified
   sender makes it do, and only such a one.
   */
  lemma {:induction false} RequestIsAnswered(d: Hearing)
    ensures !d.Greeted() ==> d.Effects() == []
    ensures d.Greeted() ==>
      d.Effects() == [Send(d.NonceReply())] + (SendAll(d.TokenAnswer()) + if d.Identified() then Later(d) else [])
    ensures d.Greeted() ==> [d.NonceReply()] + d.TokenAnswer() <= Sends(d.Effects())
    ensures d.Greeted() && !d.Identified() ==> Sends(d.Effects()) == [d.NonceReply()] + d.TokenAnswer() && Tells(d.Effects()) == []
  {
    if !d.Greeted() {
      WithoutNonce(d);
    } else {
      var answer, rest: seq<Doing> := SendAll(d.TokenAnswer()), if d.Identified() then Later(d) else [];
      WithNonce(d);
      if d.Identified() {
        WithToken(d);
      } else {
        WithoutToken(d);
        assert answer + [] == answer;
      }
      OneEffect<Event>(Send(d.NonceReply()));
      SendsOfSendAll<Event>(d.TokenAnswer());
      SendsTellsAppend(answer, rest);
      SendsTellsAppend([Send(d.NonceReply())], answer + rest);
      assert Sends(d.Effects()) == [d.NonceReply()] + (d.TokenAnswer() + Sends(rest));
    }
  }

  // Admission

  function Verified(d: Hearing): Verification
    requires d.Identified() && d.cfg.pin.Some?
  {
    Verify(d.cfg.json, d.cfg.pin.value, NoticesOf(r => R.Notice(d.cfg, r)), "", 0, false, d.q[2..])
  }

  lemma {:induction false} PastIfVerified(d: Hearing)
    requires d.Identified() && d.cfg.pin.Some? && d.cfg.pin.value.pin != ""
    ensures Verified(d).ok <==> exists b: nat :: d.PastPin(b)
    ensures forall b: nat :: d.PastPin(b) ==> Verified(d).unread == d.q[b..]
  {
    var pin, rest := d.cfg.pin.value, d.q[2..];
    VerifiesIff(d.cfg.json, pin, NoticesOf(r => R.Notice(d.cfg, r)), false, rest);
    if Verified(d).ok {
      var m: nat :| RightAfter(d.cfg.json, pin, rest, pin.maxTries, m);
      assert d.PastPin(m + 2);
    }
    forall b: nat | d.PastPin(b) ensures Verified(d).ok && Verified(d).unread == d.q[b..] {
      assert RightAfter(d.cfg.json, pin, rest, pin.maxTries, b - 2);
      assert rest[b - 2..] == d.q[b..];
    }
  }

  lemma {:induction false} LaterOfPin(d: Hearing, files: seq<FileDto>)
    requires d.Identified() && d.cfg.pin.Some?
    ensures Shown(Later(d), files) <==> Verified(d).ok && ListsSomewhere(d.cfg, Verified(d).unread, files)
  {
    VerifyingShowsNothing(d.cfg, d.cfg.pin.value, "", 0, false, d.q[2..], files);
    StatusShows(d.cfg, d.Nonce(), Verified(d).unread, files);
  }

  ghost predicate PassesAndLists(d: Hearing, b: nat, files: seq<FileDto>) {
    d.PastPin(b) && ListsSomewhere(d.cfg, d.q[b..], files)
  }

  lemma {:induction false} LaterShows(d: Hearing, files: seq<FileDto>)
    requires d.Identified()
    ensures Shown(Later(d), files) <==> exists b: nat :: PassesAndLists(d, b, files)
  {
    if d.cfg.pin.None? {
      StatusShows(d.cfg, d.Nonce(), d.q[2..], files);
      assert PassesAndLists(d, 2, files) <==> ListsSomewhere(d.cfg, d.q[2..], files);
    } else if d.cfg.pin.value.pin == "" {
      LaterOfPin(d, files);
      assert Verified(d) == Verification(true, [], d.q[2..]);
      assert PassesAndLists(d, 2, files) <==> ListsSomewhere(d.cfg, d.q[2..], files);
    } else {
      LaterOfPin(d, files);
      PastIfVerified(d);
      forall b: nat | d.PastPin(b) ensures PassesAndLists(d, b, files) <==> ListsSomewhere(d.cfg, Verified(d).unread, files) {
      }
    }
  }

  lemma {:induction false} PassesIfAdmitted(d: Hearing, files: seq<FileDto>)
    requires d.Identified()
    ensures d.Admitted(files) <==> exists b: nat :: PassesAndLists(d, b, files)
  {
    if d.Admitted(files) {
      var b: nat, k: nat :| d.Admits(b, k, files);
      assert PassesAndLists(d, b, files);
    }
    forall b: nat | PassesAndLists(d, b, files) ensures d.Admitted(files) {
      var k: nat :| Lists(d.cfg, d.q[b..], k, files);
      assert d.Admits(b, k, files);
    }
  }

  /**
   For any messages up to the close, the receiver shows its user exactly the
   file lists of admitted senders: a nonce came, the token passed, one of the
   allowed attempts at the receiver's own PIN was right, and the list came
   directly or after the requests for the sender's PIN.
   */
  lemma {:induction false} ListOnlyFromAdmitted(d: Hearing, files: seq<FileDto>)
    ensures Tell(FilesListed(files)) in d.Effects() <==> d.Admitted(files)
  {
    RequestIsAnswered(d);
    if d.Greeted() {
      SendingShowsNothing(d.TokenAnswer(), files);
      if d.Identified() {
        LaterShows(d, files);
        PassesIfAdmitted(d, files);
      }
    }
  }
}
