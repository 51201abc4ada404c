/** A whole session of an honest sender and an honest receiver, and how it must end. */
module Session {
  import opened Prelude
  import opened Model
  import opened Channel
  import opened Framing
  import opened TwoTasks
  import opened Protocol
  import opened Pin
  import opened S = Sender
  import opened R = Receiver
  import Token

  datatype Session = Session(s: SenderConfig, r: ReceiverConfig)

  type Peers = System<SenderCtl, ReceiverCtl, Event>
  type Scene = World<SenderCtl, ReceiverCtl, Event>

  /** Both sides run this code with the same message format and nonces as generated. */
  ghost predicate Honest(c: Session) {
    && c.r.json == c.s.json && c.r.hash == c.s.hash && c.s.json.Lawful()
    && |c.s.nonce| == 32 && |c.r.nonce| == 32
  }

  function Both(c: Session): Peers {
    System(SenderTask(c.s), ReceiverTask(c.r))
  }

  function Begin(c: Session): Scene {
    World(Side(S.Start(c.s).effects, S.Start(c.s).next, []), Side([], R.Start().next, []), [], [])
  }

  // How a session must end

  function SessionNonce(c: Session): bytes {
    c.s.nonce + c.r.nonce
  }

  function SenderToken(c: Session): string {
    Token.GenerateTokenNonce(c.s.hash, c.s.key, SessionNonce(c))
  }

  function ReceiverToken(c: Session): string {
    Token.GenerateTokenNonce(c.r.hash, c.r.key, SessionNonce(c))
  }

  predicate Trusts(hash: bytes -> bytes, key: Option<Token.VerifyingKey>, token: string, nonce: bytes) {
    key.Some? ==> Token.VerifyTokenNonce(hash, key.value, token, nonce) == Token.Accepted
  }

  predicate IsEmptyPin(pin: Option<PinConfig>) {
    pin.Some? && pin.value.pin == ""
  }

  /** An empty PIN is taken as given. */
  predicate Passes(pin: Option<PinConfig>, guesses: seq<string>) {
    pin.Some? && pin.value.pin != "" ==> Guessed(pin.value, guesses)
  }

  /** All allowed attempts were made, and none was right. */
  predicate Exhausted(pin: PinConfig, least: nat, guesses: seq<string>) {
    pin.pin != "" && !Guessed(pin, guesses) && |guesses| >= pin.maxTries && |guesses| >= least
  }

  /** What the side that verifies a PIN tells its application. */
  function GuardLog(pin: Option<PinConfig>, guesses: seq<string>): seq<Event> {
    match pin
    case None => []
    case Some(p) =>
      [StatusChanged(PinRequired)] + if Exhausted(p, 0, guesses) then [StatusChanged(TooManyAttempts)] else []
  }

  function Prompts(n: nat): seq<Event> {
    if n == 0 then [] else Prompts(n - 1) + [StatusChanged(PinRequired), PinPrompted]
  }

  /** What the side that has to give a PIN tells its application: one prompt per PIN it sends, and one more if the user has no other. */
  function PromptLog(pin: Option<PinConfig>, guesses: seq<string>, least: nat): seq<Event> {
    match pin
    case None => []
    case Some(p) =>
      if p.pin == "" then []
      else if p.maxTries < least then
        Prompts(least) + if Exhausted(p, least, guesses) then [StatusChanged(TooManyAttempts)] else []
      else if p.maxTries == 0 then [StatusChanged(RTCStatus.Error("Unexpected TooManyAttempts response"))]
      else
        Prompts(Min(FirstMatch(guesses, p.pin) + 1, p.maxTries))
        + if Exhausted(p, least, guesses) then [StatusChanged(TooManyAttempts)] else []
  }

  /** The transfers whose id has a token. */
  function Granted(tokens: map<string, string>, ts: seq<Transfer>): seq<Transfer> {
    if ts == [] then [] else (if ts[0].id in tokens then [ts[0]] else []) + Granted(tokens, ts[1..])
  }

  function RefusedLog(tokens: map<string, string>, ts: seq<Transfer>): seq<Event> {
    if ts == [] then []
    else (if ts[0].id in tokens then [] else [FileFailed(ts[0].id, "Failed to get file token")]) + RefusedLog(tokens, ts[1..])
  }

  function DataEvents(id: string, chunks: seq<bytes>): seq<Event> {
    if chunks == [] then [] else [FileData(id, chunks[0])] + DataEvents(id, chunks[1..])
  }

  function StrayEvents(chunks: seq<bytes>): seq<Event> {
    if chunks == [] then []
    else [FileFailed("unknown", "Received binary data without a header")] + StrayEvents(chunks[1..])
  }

  /** What the receiving application sees of one file. */
  function FileLog(files: seq<FileDto>, t: Transfer): seq<Event> {
    var chunks := Chunks(Concat(t.pieces));
    if Listed(files, t.id) then [FileOpened(t.id)] + DataEvents(t.id, chunks) + [FileClosed(t.id)]
    else [FileFailed(t.id, "File not found in file list")] + StrayEvents(chunks)
  }

  function FilesLog(files: seq<FileDto>, ts: seq<Transfer>): seq<Event> {
    if ts == [] then [] else FileLog(files, ts[0]) + FilesLog(files, ts[1..])
  }

  /** The end delimiter finds a file open. */
  predicate EndsCleanly(files: seq<FileDto>, ts: seq<Transfer>) {
    ts != [] && Listed(files, ts[|ts| - 1].id)
  }

  datatype Ending = Ending(sender: SenderResult, senderLog: seq<Event>, receiver: ReceiverResult, receiverLog: seq<Event>)

  /** The end of the session, computed from what the two sides are given alone. */
  function Expected(c: Session): Ending {
    var nonce := SessionNonce(c);
    if !Trusts(c.r.hash, c.r.expecting, SenderToken(c), nonce) then Ending(SendFailed, [], ReceiveFailed, [])
    else if !Trusts(c.s.hash, c.s.expecting, ReceiverToken(c), nonce) then
      Ending(SendFailed, [], ReceiveFailed, GuardLog(c.r.pin, []))
    else if IsEmptyPin(c.r.pin) then ExpectedOfEmptyPin(c)
    else
      var s1, r1 := PromptLog(c.r.pin, c.s.guesses, 1), GuardLog(c.r.pin, c.s.guesses);
      if !Passes(c.r.pin, c.s.guesses) then Ending(SendFailed, s1, ReceiveFailed, r1)
      else ExpectedSecondPin(c, s1, r1)
  }

  /** What the sender tells when it turns to its own PIN, without waiting for an attempt. */
  function ChallengeLog(pin: Option<PinConfig>): seq<Event> {
    match pin
    case None => [StatusChanged(Connected)]
    case Some(p) =>
      [StatusChanged(PinRequired)]
      + if p.pin == "" then [StatusChanged(Connected)] else if p.maxTries == 0 then [StatusChanged(TooManyAttempts)] else []
  }

  /** A receiver with an empty PIN accepts unasked, and takes the attempt that comes nevertheless for the sender's verdict. */
  function ExpectedOfEmptyPin(c: Session): Ending {
    Ending(SendFailed, Prompts(1) + (if c.s.guesses == [] then [] else ChallengeLog(c.s.pin)),
           ReceiveFailed, [StatusChanged(PinRequired)])
  }

  function ExpectedSecondPin(c: Session, s1: seq<Event>, r1: seq<Event>): Ending {
    var s2, r2 := s1 + GuardLog(c.s.pin, c.r.guesses), r1 + PromptLog(c.s.pin, c.r.guesses, 0);
    if !Passes(c.s.pin, c.r.guesses) then Ending(SendFailed, s2, ReceiveFailed, r2)
    else ExpectedChoice(c, s2 + [StatusChanged(Connected)], r2 + [StatusChanged(Connected), FilesListed(c.s.files)])
  }

  function Tokens(c: Session): map<string, string> {
    if c.r.choice.Select? then map id | id in c.r.choice.ids :: c.r.fileToken(id) else map[]
  }

  function ExpectedChoice(c: Session, s: seq<Event>, r: seq<Event>): Ending {
    match c.r.choice
    case NoChoice => Ending(SendFailed, s, Unanswered, r)
    case Decline => Ending(SendDeclined, s + [StatusChanged(Declined)], ReceiveDeclined, r)
    case Select(_) =>
      var tokens := Tokens(c);
      var ts := Granted(tokens, c.s.transfers);
      Ending(Sent(SessionNonce(c), tokens),
        s + [SelectionMade(tokens.Keys)] + RefusedLog(tokens, c.s.transfers),
        if EndsCleanly(c.s.files, ts) then Received(Agreement(SessionNonce(c), c.s.files, tokens)) else ReceiveFailed,
        r + FilesLog(c.s.files, ts))
  }

  /** Both tasks are done, with the expected results, having told their applications exactly what was expected. */
  ghost predicate Ended(c: Session, w: Scene) {
    var e := Expected(c);
    && w.sender == Side([], SenderDone(e.sender), e.senderLog)
    && w.receiver == Side([], ReceiverDone(e.receiver), e.receiverLog)
  }

  // Steering one run to its end

  ghost predicate Settles(c: Session, w: Scene) {
    exists end :: LeadsTo(Both(c), w, end) && Ended(c, end)
  }

  lemma {:induction false} EndedIsStuck(c: Session, w: Scene)
    requires Ended(c, w)
    ensures Stuck(Both(c), w)
  {
  }

  lemma {:induction false} SettlesWhenEnded(c: Session, w: Scene)
    requires Ended(c, w)
    ensures Settles(c, w)
  {
    LeadsToItself(Both(c), w);
  }

  lemma {:induction false} SettlesBefore(c: Session, w: Scene, v: Scene)
    requires LeadsTo(Both(c), w, v) && Settles(c, v)
    ensures Settles(c, w)
  {
    var end :| LeadsTo(Both(c), v, end) && Ended(c, end);
    LeadsToTransitive(Both(c), w, v, end);
  }

  /** A moment at which both tasks wait. */
  function Pause(sctl: SenderCtl, slog: seq<Event>, rctl: ReceiverCtl, rlog: seq<Event>, toReceiver: seq<Message>, toSender: seq<Message>): Scene {
    World(Side([], sctl, slog), Side([], rctl, rlog), toReceiver, toSender)
  }

  lemma {:induction false} SenderGoesOn(c: Session, sctl: SenderCtl, slog: seq<Event>, rctl: ReceiverCtl, rlog: seq<Event>, toReceiver: seq<Message>, toSender: seq<Message>)
    requires var o := Run(SenderTask(c.s), sctl, toSender);
      Settles(c, Pause(o.ctl, slog + Tells(o.effects), rctl, rlog, toReceiver + Sends(o.effects), o.unread))
    ensures Settles(c, Pause(sctl, slog, rctl, rlog, toReceiver, toSender))
  {
    var w := Pause(sctl, slog, rctl, rlog, toReceiver, toSender);
    SenderRuns(Both(c), w);
    SettlesBefore(c, w, SenderRan(Both(c), w));
  }

  lemma {:induction false} ReceiverGoesOn(c: Session, sctl: SenderCtl, slog: seq<Event>, rctl: ReceiverCtl, rlog: seq<Event>, toReceiver: seq<Message>, toSender: seq<Message>)
    requires var o := Run(ReceiverTask(c.r), rctl, toReceiver);
      Settles(c, Pause(sctl, slog, o.ctl, rlog + Tells(o.effects), o.unread, toSender + Sends(o.effects)))
    ensures Settles(c, Pause(sctl, slog, rctl, rlog, toReceiver, toSender))
  {
    var w := Pause(sctl, slog, rctl, rlog, toReceiver, toSender);
    ReceiverRuns(Both(c), w);
    SettlesBefore(c, w, ReceiverRan(Both(c), w));
  }

  lemma {:induction false} SenderHears(c: Session, sctl: SenderCtl, slog: seq<Event>, rctl: ReceiverCtl, rlog: seq<Event>, toReceiver: seq<Message>, m: Message)
    requires !sctl.SenderDone?
    requires var r := S.React(c.s, sctl, Some(m));
      Settles(c, Pause(r.next, slog + Tells(r.effects), rctl, rlog, toReceiver + Sends(r.effects), []))
    ensures Settles(c, Pause(sctl, slog, rctl, rlog, toReceiver, [m]))
  {
    RunOne(SenderTask(c.s), sctl, m);
    SenderGoesOn(c, sctl, slog, rctl, rlog, toReceiver, [m]);
  }

  lemma {:induction false} ReceiverHears(c: Session, sctl: SenderCtl, slog: seq<Event>, rctl: ReceiverCtl, rlog: seq<Event>, toSender: seq<Message>, m: Message)
    requires !rctl.ReceiverDone?
    requires var r := R.React(c.r, rctl, Some(m));
      Settles(c, Pause(sctl, slog, r.next, rlog + Tells(r.effects), [], toSender + Sends(r.effects)))
    ensures Settles(c, Pause(sctl, slog, rctl, rlog, [m], toSender))
  {
    RunOne(ReceiverTask(c.r), rctl, m);
    ReceiverGoesOn(c, sctl, slog, rctl, rlog, [m], toSender);
  }

  /** A waiting sender learns that the receiver is gone. */
  lemma {:induction false} SenderHearsClose(c: Session, sctl: SenderCtl, slog: seq<Event>, result: ReceiverResult, rlog: seq<Event>, toReceiver: seq<Message>)
    requires !sctl.SenderDone?
    requires var r := S.React(c.s, sctl, None);
      Settles(c, World(Side(r.effects, r.next, slog), Side([], ReceiverDone(result), rlog), toReceiver, []))
    ensures Settles(c, Pause(sctl, slog, ReceiverDone(result), rlog, toReceiver, []))
  {
    var w := Pause(sctl, slog, ReceiverDone(result), rlog, toReceiver, []);
    LeadsToStep(Both(c), w, SenderTurn);
    assert toReceiver + [] == toReceiver;
    SettlesBefore(c, w, Step(Both(c), w, SenderTurn));
  }

  lemma {:induction false} ReceiverHearsClose(c: Session, result: SenderResult, slog: seq<Event>, rctl: ReceiverCtl, rlog: seq<Event>, toSender: seq<Message>)
    requires !rctl.ReceiverDone?
    requires var r := R.React(c.r, rctl, None);
      Settles(c, World(Side([], SenderDone(result), slog), Side(r.effects, r.next, rlog), [], toSender))
    ensures Settles(c, Pause(SenderDone(result), slog, rctl, rlog, [], toSender))
  {
    var w := Pause(SenderDone(result), slog, rctl, rlog, [], toSender);
    LeadsToStep(Both(c), w, ReceiverTurn);
    assert toSender + [] == toSender;
    SettlesBefore(c, w, Step(Both(c), w, ReceiverTurn));
  }
}
