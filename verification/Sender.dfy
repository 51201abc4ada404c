/** What `send_offer` spawns: the sending peer, as a reaction to each received message. */
module Sender {
  import opened Prelude
  import opened Model
  import opened Channel
  import opened Framing
  import opened TwoTasks
  import opened Protocol
  import opened Pin
  import Base64
  import Token

  /** One file handed over for sending, in the pieces the application cuts it into. */
  datatype Transfer = Transfer(id: string, pieces: seq<bytes>)

  datatype SenderConfig = SenderConfig(
    json: Json,
    hash: bytes -> bytes,
    key: Token.SigningKey,
    expecting: Option<Token.VerifyingKey>,
    nonce: bytes,
    pin: Option<PinConfig>,
    files: seq<FileDto>,
    // what the application will answer and hand over
    guesses: seq<string>,
    parsePublicKey: (string, string) -> Option<Token.VerifyingKey>,
    pairAnswer: Option<bool>,
    transfers: seq<Transfer>)

  datatype SenderResult =
    | Sent(nonce: bytes, granted: map<string, string>)
    | SendDeclined
    | SendFailed

  /** Where the sender waits. */
  datatype SenderCtl =
    | AwaitNonce
    | AwaitToken(nonce: bytes)
    | AwaitPinReply(nonce: bytes, remoteToken: string, guesses: seq<string>)
    | AwaitPin(nonce: bytes, remoteToken: string, tries: nat)
    | AwaitSelection(nonce: bytes, remoteToken: string, paired: bool, buffer: bytes)
    | AwaitResponse(nonce: bytes, granted: map<string, string>)
    | SenderDone(result: SenderResult)

  type Next = Reaction<SenderCtl, Event>

  const FAILED: Next := Reaction([], SenderDone(SendFailed))

  function Then(es: seq<Doing>, n: Next): Next {
    n.(effects := es + n.effects)
  }

  /** Validation of a received nonce, shared by both peers. */
  function ReceiveNonce(json: Json, m: Option<Message>): Option<bytes> {
    if m.None? || !m.value.isString then None
    else match json.nonce.parse(m.value.data)
      case None => None
      case Some(text) =>
        match Base64.Decode(text)
        case None => None
        case Some(nonce) => if 16 <= |nonce| <= 128 then Some(nonce) else None
  }

  function Start(cfg: SenderConfig): Next {
    Reaction([Send(StringMessage(cfg.json.nonce.show(Base64.Encode(cfg.nonce))))], AwaitNonce)
  }

  function OnNonce(cfg: SenderConfig, m: Option<Message>): Next {
    match ReceiveNonce(cfg.json, m)
    case None => FAILED
    case Some(remote) =>
      var nonce := cfg.nonce + remote;
      var token := Token.GenerateTokenNonce(cfg.hash, cfg.key, nonce);
      Reaction([Send(StringMessage(cfg.json.tokenRequest.show(token)))], AwaitToken(nonce))
  }

  function TokenPasses(cfg: SenderConfig, nonce: bytes, token: string): bool {
    cfg.expecting.Some? ==> Token.VerifyTokenNonce(cfg.hash, cfg.expecting.value, token, nonce) == Token.Accepted
  }

  function OnToken(cfg: SenderConfig, nonce: bytes, m: Option<Message>): Next {
    if m.None? || !m.value.isString then FAILED
    else match cfg.json.tokenResponse.parse(m.value.data)
      case None => FAILED
      case Some(TokenInvalidSignature) => FAILED
      case Some(TokenOk(token)) =>
        if TokenPasses(cfg, nonce, token) then ChallengeReceiver(cfg, nonce, token) else FAILED
      case Some(TokenPinRequired(token)) =>
        if TokenPasses(cfg, nonce, token) then PromptForPin(cfg, nonce, token, cfg.guesses) else FAILED
  }

  // The receiver's PIN, which the sender has to give

  function PromptForPin(cfg: SenderConfig, nonce: bytes, token: string, guesses: seq<string>): Next {
    Then(Prompting(),
      if guesses == [] then FAILED
      else Reaction([PinAttempt(cfg.json, guesses[0])], AwaitPinReply(nonce, token, guesses[1..])))
  }

  function OnPinReply(cfg: SenderConfig, nonce: bytes, token: string, guesses: seq<string>, m: Option<Message>): Next {
    if m.None? || !m.value.isString then FAILED
    else match cfg.json.pinReceiving.parse(m.value.data)
      case None => FAILED
      case Some(PinAccepted) => ChallengeReceiver(cfg, nonce, token)
      case Some(PinWanted) => PromptForPin(cfg, nonce, token, guesses)
      case Some(PinTriesExceeded) => Reaction([Announce(TooManyAttempts)], SenderDone(SendFailed))
  }

  // The sender's own PIN

  function Notice(cfg: SenderConfig, result: VerifyPinResult): seq<Message> {
    Framed(cfg.json.pinSending.show(if result.NoticeWanted? then SendingPinWanted else SendingPinTriesExceeded))
  }

  function ChallengeReceiver(cfg: SenderConfig, nonce: bytes, token: string): Next {
    match cfg.pin
    case None => SendFileList(cfg, nonce, token)
    case Some(pin) => Then([Announce(PinRequired)], CheckPin(cfg, pin, nonce, token, "", 0, true))
  }

  function CheckPin(cfg: SenderConfig, pin: PinConfig, nonce: bytes, token: string, remote: string, tries: nat, notice: bool): Next {
    var n := NoticesOf(r => Notice(cfg, r));
    if remote == pin.pin then SendFileList(cfg, nonce, token)
    else if tries >= pin.maxTries then Reaction(n.exceeded, SenderDone(SendFailed))
    else Reaction(Asking(n, tries, notice), AwaitPin(nonce, token, tries))
  }

  function OnPin(cfg: SenderConfig, nonce: bytes, token: string, tries: nat, m: Option<Message>): Next {
    if m.None? || cfg.pin.None? then FAILED
    else match cfg.json.pin.parse(m.value.data)
      case None => FAILED
      case Some(remote) => CheckPin(cfg, cfg.pin.value, nonce, token, remote, tries + 1, false)
  }

  // The file list and the receiver's selection

  function SendFileList(cfg: SenderConfig, nonce: bytes, token: string): Next {
    Reaction([Announce(Connected)] + SendAll(Framed(cfg.json.pinSending.show(Files(cfg.files)))),
      AwaitSelection(nonce, token, false, []))
  }

  function OnSelection(cfg: SenderConfig, nonce: bytes, token: string, paired: bool, buffer: bytes, m: Option<Message>): Next {
    if m.Some? && !m.value.isString then Reaction([], AwaitSelection(nonce, token, paired, buffer + m.value.data))
    else match cfg.json.fileList.parse(buffer)
      case None => FAILED
      case Some(ListOk(granted)) => SendFiles(cfg, nonce, granted)
      case Some(ListDeclined) => Reaction([Announce(Declined)], SenderDone(SendDeclined))
      case Some(ListInvalidSignature) =>
        Reaction([Announce(RTCStatus.Error("Invalid signature (not expected)"))], SenderDone(SendFailed))
      case Some(ListPair(publicKey)) =>
        if paired then Reaction([Announce(RTCStatus.Error("Unexpected pair response"))], SenderDone(SendFailed))
        else OnPair(cfg, nonce, token, publicKey)
  }

  function PairReply(cfg: SenderConfig, reply: PairResponse): Doing {
    Send(StringMessage(cfg.json.pair.show(reply)))
  }

  function OnPair(cfg: SenderConfig, nonce: bytes, token: string, publicKey: string): Next {
    match Token.ExtractSignatureIdentifier(token)
    case None => FAILED
    case Some(identifier) =>
      match cfg.parsePublicKey(publicKey, identifier)
      case None => FAILED
      case Some(key) =>
        match Token.VerifyTokenNonce(cfg.hash, key, token, nonce)
        case Panicked => FAILED
        case Rejected => Reaction([PairReply(cfg, PairInvalidSignature)], SenderDone(SendFailed))
        case Accepted =>
          if cfg.pairAnswer.None? then Reaction([Tell(PairPrompted)], SenderDone(SendFailed))
          else Reaction(
            [Tell(PairPrompted), PairReply(cfg, if cfg.pairAnswer.value then PairOk(publicKey) else PairDeclined)],
            AwaitSelection(nonce, token, true, []))
  }

  // The files

  function SendFile(cfg: SenderConfig, granted: map<string, string>, t: Transfer): seq<Doing> {
    if t.id !in granted then [Tell(FileFailed(t.id, "Failed to get file token"))]
    else
      [Send(StringMessage(cfg.json.header.show(FileHeader(t.id, granted[t.id]))))]
      + SendAll(Binaries(Chunks(Concat(t.pieces))))
  }

  function SendEach(cfg: SenderConfig, granted: map<string, string>, ts: seq<Transfer>): seq<Doing> {
    if ts == [] then [] else SendFile(cfg, granted, ts[0]) + SendEach(cfg, granted, ts[1..])
  }

  function SendFiles(cfg: SenderConfig, nonce: bytes, granted: map<string, string>): Next {
    Reaction([Tell(SelectionMade(granted.Keys))] + SendEach(cfg, granted, cfg.transfers) + [Send(DELIMITER)],
      AwaitResponse(nonce, granted))
  }

  function React(cfg: SenderConfig, ctl: SenderCtl, m: Option<Message>): Next {
    match ctl
    case AwaitNonce => OnNonce(cfg, m)
    case AwaitToken(nonce) => OnToken(cfg, nonce, m)
    case AwaitPinReply(nonce, token, guesses) => OnPinReply(cfg, nonce, token, guesses, m)
    case AwaitPin(nonce, token, tries) => OnPin(cfg, nonce, token, tries, m)
    case AwaitSelection(nonce, token, paired, buffer) => OnSelection(cfg, nonce, token, paired, buffer, m)
    case AwaitResponse(nonce, granted) => Reaction([], SenderDone(Sent(nonce, granted)))
    case SenderDone(_) => Reaction([], ctl)
  }

  function SenderTask(cfg: SenderConfig): Task<SenderCtl, Event> {
    Task((ctl, m) => React(cfg, ctl, m), (ctl: SenderCtl) => ctl.SenderDone?)
  }

  // Until the channel is closed

  /** How many more receives on a closed channel there can be. */
  function Patience(ctl: SenderCtl): nat {
    if ctl.SenderDone? then 0
    else if ctl.AwaitSelection? then if ctl.paired then 2 else 3
    else 1
  }

  /** A receive on a closed channel brings the end nearer. */
  lemma {:induction false} CloseBringsEnd(cfg: SenderConfig, ctl: SenderCtl)
    requires !ctl.SenderDone?
    ensures Patience(React(cfg, ctl, None).next) < Patience(ctl)
  {
  }

  /** What happens once the channel is closed and empty. */
  function UponClose(cfg: SenderConfig, ctl: SenderCtl): Next
    decreases Patience(ctl)
  {
    if ctl.SenderDone? then Reaction([], ctl)
    else
      CloseBringsEnd(cfg, ctl);
      var r := React(cfg, ctl, None);
      Then(r.effects, UponClose(cfg, r.next))
  }

  /** A whole run on `q`, after which the channel is closed. */
  function RunToClose(cfg: SenderConfig, ctl: SenderCtl, q: seq<Message>): Next {
    var o := Run(SenderTask(cfg), ctl, q);
    Then(o.effects, UponClose(cfg, o.ctl))
  }

  lemma {:induction false} RunToCloseFirst(cfg: SenderConfig, ctl: SenderCtl, q: seq<Message>)
    requires !ctl.SenderDone? && q != []
    ensures var r := React(cfg, ctl, Some(q[0])); RunToClose(cfg, ctl, q) == Then(r.effects, RunToClose(cfg, r.next, q[1..]))
  {
    var r := React(cfg, ctl, Some(q[0]));
    RunFirst(SenderTask(cfg), ctl, q);
    var rest := Run(SenderTask(cfg), r.next, q[1..]);
    Associative(r.effects, rest.effects, UponClose(cfg, rest.ctl).effects);
  }

  lemma {:induction false} RunToCloseLast(cfg: SenderConfig, ctl: SenderCtl, q: seq<Message>)
    requires ctl.SenderDone? || q == []
    ensures RunToClose(cfg, ctl, q) == UponClose(cfg, ctl)
  {
    NothingLeft(SenderTask(cfg), ctl, q);
    var n := UponClose(cfg, ctl);
    assert [] + n.effects == n.effects;
  }
}
